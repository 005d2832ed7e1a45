// Encrypted dumps under an ideal cipher (internal/backup/backup.go, encrypt and
// decrypt): a sealed dump opens with the secret it was sealed with and with no
// other, and whatever else lies in a file opens with none.
module Archive {
  import opened Wrappers

  type Secret = string
  type Plain = string   // a pg_dump archive

  // Both header versions open; new dumps are always version 2.
  datatype Blob =
    | Sealed(version: nat, secret: Secret, nonce: nat, plain: Plain)
    | Junk(bytes: string)

  // Magic, nonce and tag; version 2 adds a salt.
  const OVERHEAD := 6 + 12 + 16
  const SALT := 16

  function Size(blob: Blob): nat {
    match blob
    case Sealed(version, _, _, plain) => OVERHEAD + (if version == 1 then 0 else SALT) + |plain|
    case Junk(bytes) => |bytes|
  }

  // readArchive, whose bytes ArchiveBudget follows.
  function Within(blob: Option<Blob>, maxBytes: nat): Option<Blob> {
    if blob.Some? && Size(blob.value) > maxBytes then None else blob
  }

  function Encrypt(plain: Plain, secret: Secret, nonce: nat): Blob { Sealed(2, secret, nonce, plain) }

  function Decrypt(blob: Blob, secret: Secret): Option<Plain> {
    match blob
    case Sealed(version, sealedWith, _, plain) =>
      if (version == 1 || version == 2) && sealedWith == secret then Some(plain) else None
    case Junk(_) => None
  }

  // pg_restore --list with the content check. What it asks of an archive is not
  // part of this model; any predicate would do.
  predicate Restorable(plain: Plain) { "PGDMP" <= plain }

  // The drill every stored copy must pass.
  predicate Drilled(blob: Blob, secret: Secret) {
    Decrypt(blob, secret).Some? && Restorable(Decrypt(blob, secret).value)
  }

  // createVerifiedDump: dump is what pg_dump produced, if it succeeded.
  method CreateVerifiedDump(dump: Option<Plain>, secret: Secret, nonce: nat, sealFails: bool) returns (blob: Option<Blob>)
    ensures blob.Some? <==> dump.Some? && Restorable(dump.value) && !sealFails
    ensures blob.Some? ==> Drilled(blob.value, secret) && blob.value == Encrypt(dump.value, secret, nonce)
  {
    if dump.None? || !Restorable(dump.value) || sealFails {
      return None;
    }
    var enc := Encrypt(dump.value, secret, nonce);
    var raw := Decrypt(enc, secret);
    if raw != dump {
      return None;
    }
    return Some(enc);
  }
}
