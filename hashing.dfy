/** The content hasher: SHA-256 digests of file contents, the hexadecimal
    strings the engines compare, and the two ways a failed read is reported
    (`calculate_file_hash` returns the sentinel string, the duplicate scan's
    `_calculate_file_hash_safe` returns None). The digest algorithm itself is
    a parameter `sha`, compared only for equality. */
module Hashing {
  import opened Collections
  import opened FileSystem

  /** A SHA-256 digest: 32 bytes. */
  type Digest = d: seq<Byte> | |d| == 32 witness seq(32, _ => 0 as Byte)

  /** The strings a modified-file record can hold as a hash: a lowercase
      hexadecimal digest, the unreadable-file sentinel, or the `'ERROR'`
      marker of a record made after `getsize` failed. */
  datatype HashText = HexDigest(digest: Digest) | ErrorReadingFile | ErrorMarker

  /** The lowercase hexadecimal digit of a value below 16. */
  function HexDigit(n: nat): (c: char)
    requires n < 16
    ensures c in "0123456789abcdef"
  {
    if n < 10 then (('0' as int) + n) as char else (('a' as int) + n - 10) as char
  }

  function HexByte(b: Byte): (r: string)
    ensures |r| == 2 && r[0] in "0123456789abcdef" && r[1] in "0123456789abcdef"
  {
    [HexDigit((b as int) / 16), HexDigit((b as int) % 16)]
  }

  /** `hexdigest()`: two lowercase hexadecimal digits per byte. */
  function Hex(d: seq<Byte>): (r: string)
    ensures |r| == 2 * |d|
    ensures forall i :: 0 <= i < |r| ==> r[i] in "0123456789abcdef"
  {
    if d == [] then [] else HexByte(d[0]) + Hex(d[1..])
  }

  /** The text the source stores for each kind of hash value. */
  function Render(h: HashText): string {
    match h
    case HexDigest(d) => Hex(d)
    case ErrorReadingFile => "ERROR_READING_FILE"
    case ErrorMarker => "ERROR"
  }

  lemma HexDigitInjective(m: nat, n: nat)
    requires m < 16 && n < 16 && HexDigit(m) == HexDigit(n)
    ensures m == n
  {
  }

  lemma HexByteInjective(a: Byte, b: Byte)
    requires HexByte(a) == HexByte(b)
    ensures a == b
  {
    var x, y := a as int, b as int;
    assert HexByte(a)[0] == HexByte(b)[0] && HexByte(a)[1] == HexByte(b)[1];
    HexDigitInjective(x / 16, y / 16);
    HexDigitInjective(x % 16, y % 16);
    assert x == 16 * (x / 16) + x % 16 && y == 16 * (y / 16) + y % 16;
  }

  lemma {:induction false} HexInjective(a: seq<Byte>, b: seq<Byte>)
    requires |a| == |b| && Hex(a) == Hex(b)
    ensures a == b
  {
    if a != [] {
      HexFirst(a);
      HexFirst(b);
      HexByteInjective(a[0], b[0]);
      HexInjective(a[1..], b[1..]);
      assert a == [a[0]] + a[1..] && b == [b[0]] + b[1..];
    }
  }

  /** The first two digits render the first byte, the rest the rest. */
  lemma HexFirst(d: seq<Byte>)
    requires d != []
    ensures Hex(d)[..2] == HexByte(d[0]) && Hex(d)[2..] == Hex(d[1..])
  {
  }

  /** Comparing the stored strings (`ref_hash != ext_hash`) is the same as
      comparing hash values: distinct values never render alike, so a
      digest is never mistaken for either error marker. */
  lemma RenderInjective(a: HashText, b: HashText)
    requires Render(a) == Render(b)
    ensures a == b
  {
    match a
    case HexDigest(d) =>
      assert |Render(a)| == 64;
      if b.HexDigest? {
        HexInjective(d, b.digest);
      }
    case ErrorReadingFile =>
      assert |Render(a)| == 18;
    case ErrorMarker =>
      assert |Render(a)| == 5;
  }

  /** `calculate_file_hash(path)`: the digest of the file's bytes, or the
      sentinel `"ERROR_READING_FILE"` when opening or reading fails; it never
      raises. */
  function CalculateFileHash(disk: Disk, path: string, sha: seq<Byte> -> Digest): (h: HashText)
    ensures h == ErrorReadingFile <==> !Readable(disk, path)
    ensures h != ErrorMarker
    ensures h.HexDigest? ==> h.digest == sha(disk.entries[path].content.value)
  {
    if Readable(disk, path) then HexDigest(sha(disk.entries[path].content.value))
    else ErrorReadingFile
  }

  /** `_calculate_file_hash_safe(path)`: the digest, or None when the file
      cannot be accessed or read. */
  function CalculateFileHashSafe(disk: Disk, path: string, sha: seq<Byte> -> Digest): (h: Option<Digest>)
    ensures h.None? <==> !Readable(disk, path)
    ensures h.Some? ==> h.value == sha(disk.entries[path].content.value)
  {
    if Readable(disk, path) then Some(sha(disk.entries[path].content.value)) else None
  }

  /** Within this model the two hashers agree: the sentinel stands exactly
      where the safe hasher gives None. This holds because both read the one
      readability oracle `Readable`. On a real system they can differ: the
      safe hasher also gives None when `os.access(path, R_OK)` is false
      although `open` would succeed, and when reading raises `MemoryError`,
      which the plain hasher lets propagate. */
  lemma HashersAgree(disk: Disk, path: string, sha: seq<Byte> -> Digest)
    ensures CalculateFileHash(disk, path, sha)
      == match CalculateFileHashSafe(disk, path, sha)
         case Some(d) => HexDigest(d)
         case None => ErrorReadingFile
  {
  }

  /** Determinism: the hash depends on the bytes only, not on the path. */
  lemma HashDependsOnContentOnly(disk: Disk, p: string, q: string, sha: seq<Byte> -> Digest)
    requires Readable(disk, p) && Readable(disk, q)
    requires disk.entries[p].content == disk.entries[q].content
    ensures CalculateFileHash(disk, p, sha) == CalculateFileHash(disk, q, sha)
    ensures CalculateFileHashSafe(disk, p, sha) == CalculateFileHashSafe(disk, q, sha)
  {
  }
}
