// The memory budget of one archive (internal/backup/resources.go and the dump and
// encryption in internal/backup/backup.go): what is written within the budget can be
// sealed, stored and read back whole.
module ArchiveBudget {
  import opened Wrappers

  type Bytes = seq<bv8>

  const HEADER := 6 + 16 + 12   // magic, salt and nonce
  const TAG := 16

  // limitedWriter over a writer that may fall short.
  class LimitedWriter {
    var written: Bytes
    var remaining: int

    constructor (budget: int)
      ensures written == [] && remaining == budget
    {
      written, remaining := [], budget;
    }

    // accepts is how much the underlying writer takes of p.
    method Write(p: Bytes, accepts: nat) returns (n: nat, ok: bool)
      requires accepts <= |p|
      modifies this
      ensures remaining + |written| == old(remaining + |written|)
      ensures n == (if |p| > old(remaining) then 0 else accepts) && written == old(written) + p[..n]
      ensures ok <==> |p| <= old(remaining) && accepts == |p|
      ensures old(remaining) >= 0 ==> remaining >= 0
    {
      if |p| > remaining {
        return 0, false;
      }
      n, ok := accepts, accepts == |p|;
      written := written + p[..n];
      remaining := remaining - n;
    }
  }

  function Joined(parts: seq<Bytes>): Bytes {
    if parts == [] then [] else Joined(parts[..|parts| - 1]) + parts[|parts| - 1]
  }

  lemma {:induction false} JoinedGrows(parts: seq<Bytes>, i: nat)
    requires i <= |parts|
    ensures |Joined(parts[..i])| <= |Joined(parts)|
  {
    if i < |parts| {
      JoinedGrows(parts[..|parts| - 1], i);
      assert parts[..|parts| - 1][..i] == parts[..i];
    } else {
      assert parts[..i] == parts;
    }
  }

  // pg_dump's output through the writer: the whole dump or an error. A dump comes
  // through exactly if it was taken whole and leaves room for the header and tag.
  method Dump(parts: seq<Bytes>, accepts: seq<nat>, maxBytes: nat) returns (dump: Option<Bytes>)
    requires |accepts| == |parts| && forall i :: 0 <= i < |parts| ==> accepts[i] <= |parts[i]|
    ensures dump.Some? ==> dump.value == Joined(parts)
    ensures dump.Some? <==> (forall i :: 0 <= i < |parts| ==> accepts[i] == |parts[i]|)
                            && (parts == [] || |Joined(parts)| + HEADER + TAG <= maxBytes)
  {
    var w := new LimitedWriter(maxBytes - HEADER - TAG);
    for i := 0 to |parts|
      invariant fresh(w) && w.written == Joined(parts[..i]) && w.remaining + |w.written| == maxBytes - HEADER - TAG
      invariant i > 0 ==> w.remaining >= 0
      invariant forall k :: 0 <= k < i ==> accepts[k] == |parts[k]|
    {
      assert parts[..i + 1][..i] == parts[..i];
      JoinedGrows(parts, i + 1);
      var n, ok := w.Write(parts[i], accepts[i]);
      if !ok {
        return None;
      }
      assert parts[i][..n] == parts[i];
    }
    assert parts[..|parts|] == parts;
    dump := Some(w.written);
  }

  // io.ReadAll(io.LimitReader(r, max+1)), refused when over max.
  function ReadArchive(source: Bytes, maxBytes: nat): Option<Bytes> {
    var data := if |source| <= maxBytes + 1 then source else source[..maxBytes + 1];
    if |data| > maxBytes then None else Some(data)
  }

  // A file is read whole or refused, never cut off.
  lemma ReadWholeOrRefused(source: Bytes, maxBytes: nat)
    ensures ReadArchive(source, maxBytes) == if |source| <= maxBytes then Some(source) else None
  {}

  // ----- the sealed file -----------------------------------------------------

  type Key = Bytes

  // Argon2id, SHA-256 and AES-256-GCM.
  datatype Cipher = Cipher(derive: (string, Bytes) -> Key, hash: string -> Key,
                           seal: (Key, Bytes, Bytes) -> Bytes, open: (Key, Bytes, Bytes) -> Option<Bytes>)

  ghost predicate Sound(c: Cipher) {
    forall key, nonce, plain :: c.open(key, nonce, c.seal(key, nonce, plain)) == Some(plain)
      && |c.seal(key, nonce, plain)| == |plain| + TAG
  }

  const MAGIC1: Bytes := [0x54, 0x52, 0x4B, 0x42, 0x4B, 0x31]   // TRKBK1
  const MAGIC2: Bytes := [0x54, 0x52, 0x4B, 0x42, 0x4B, 0x32]   // TRKBK2

  function EncryptFile(plain: Bytes, secret: string, salt: Bytes, nonce: Bytes, c: Cipher): Bytes {
    MAGIC2 + salt + nonce + c.seal(c.derive(secret, salt), nonce, plain)
  }

  // What older releases wrote.
  function EncryptLegacy(plain: Bytes, secret: string, nonce: Bytes, c: Cipher): Bytes {
    MAGIC1 + nonce + c.seal(c.hash(secret), nonce, plain)
  }

  function Open(key: Key, enc: Bytes, c: Cipher): Option<Bytes> {
    if |enc| < 12 then None else c.open(key, enc[..12], enc[12..])
  }

  function Decrypt(enc: Bytes, secret: string, c: Cipher): Option<Bytes> {
    if |enc| >= 22 && enc[..6] == MAGIC2 then Open(c.derive(secret, enc[6..22]), enc[22..], c)
    else if |enc| >= 6 && enc[..6] == MAGIC1 then Open(c.hash(secret), enc[6..], c)
    else None
  }

  // Both formats open to what was sealed, and a dump that passed the writer makes a
  // file that is read back whole.
  lemma SealedFileOpens(plain: Bytes, secret: string, salt: Bytes, nonce: Bytes, c: Cipher, maxBytes: nat)
    requires Sound(c) && |salt| == 16 && |nonce| == 12
    ensures Decrypt(EncryptFile(plain, secret, salt, nonce, c), secret, c) == Some(plain)
    ensures Decrypt(EncryptLegacy(plain, secret, nonce, c), secret, c) == Some(plain)
    ensures |plain| + HEADER + TAG <= maxBytes ==>
      ReadArchive(EncryptFile(plain, secret, salt, nonce, c), maxBytes) == Some(EncryptFile(plain, secret, salt, nonce, c))
  {
    var sealed := c.seal(c.derive(secret, salt), nonce, plain);
    var enc := EncryptFile(plain, secret, salt, nonce, c);
    assert enc[..6] == MAGIC2 && enc[6..22] == salt && enc[22..] == nonce + sealed;
    assert (nonce + sealed)[..12] == nonce && (nonce + sealed)[12..] == sealed;
    var legacy := EncryptLegacy(plain, secret, nonce, c);
    var legacySeal := c.seal(c.hash(secret), nonce, plain);
    assert legacy[..6] == MAGIC1 && legacy[6..] == nonce + legacySeal;
    assert (nonce + legacySeal)[..12] == nonce && (nonce + legacySeal)[12..] == legacySeal;
    assert MAGIC1[5] != MAGIC2[5];
  }
}
