/** Cache-file naming: paths sharded by the first characters of a SHA-256
  * digest (pkg/cli/icons.go `cachefile`, icons.go `cachefile`) or of a
  * zero-padded ID (pkg/cli/icons.go `cachefileID`).
  *
  * SHA-256 itself is not modelled: every function here takes the hash as
  * a parameter `hash` that maps a string to 64 lowercase hex digits, and
  * every property holds for any such function. */
module CacheKeys {
  import opened Strings
  import opened Numbers
  import Seqs

  predicate IsHexDigit(c: char)
  {
    '0' <= c <= '9' || 'a' <= c <= 'f'
  }

  /** The output of `fmt.Sprintf("%x", sha256.Sum256(...))`. */
  type Digest = s: string | |s| == 64 && forall i :: 0 <= i < |s| ==> IsHexDigit(s[i])
    witness seq(64, i => '0')

  type Hasher = string -> Digest

  function Concat(parts: seq<string>): string
  {
    if parts == [] then "" else parts[0] + Concat(parts[1..])
  }

  /** pkg/cli/icons.go `cachefile(key, ext...)`. */
  function CacheFile(hash: Hasher, key: string, ext: seq<string>): string
  {
    var h := hash(key);
    h[0..2] + "/" + h[2..4] + "/" + h + Ext(key) + Concat(ext)
  }

  /** The path holds the whole digest behind two two-character shard
    * directories taken from its start, and then the key's own extension
    * and the extra extensions. */
  lemma CacheFileLayout(hash: Hasher, key: string, ext: seq<string>)
    ensures var p := CacheFile(hash, key, ext);
      |p| == 70 + |Ext(key)| + |Concat(ext)|
      && p[6..70] == hash(key)
      && p[0..2] == hash(key)[0..2] && p[3..5] == hash(key)[2..4]
      && p[2] == '/' && p[5] == '/'
      && p[70..] == Ext(key) + Concat(ext)
  {
  }

  /** Two keys share a cache file only if their digests are equal: the
    * path determines the digest. */
  lemma CacheFileCollision(hash: Hasher, k1: string, k2: string, ext: seq<string>)
    requires CacheFile(hash, k1, ext) == CacheFile(hash, k2, ext)
    ensures hash(k1) == hash(k2)
  {
    CacheFileLayout(hash, k1, ext);
    CacheFileLayout(hash, k2, ext);
  }

  /** icons.go `cachefile(u, ext...)`: three shard directories, then the
    * digest from its seventh character, but without its last character. */
  function LegacyCacheFile(hash: Hasher, key: string, ext: seq<string>): string
  {
    var h := hash(key);
    h[0..2] + "/" + h[2..4] + "/" + h[4..6] + "/" + h[6..63] + Ext(key) + Concat(ext)
  }

  /** The legacy path keeps only the first 63 digest characters. */
  lemma LegacyCacheFileLayout(hash: Hasher, key: string, ext: seq<string>)
    ensures var p := LegacyCacheFile(hash, key, ext);
      |p| == 66 + |Ext(key)| + |Concat(ext)|
      && p[0..2] + p[3..5] + p[6..8] + p[9..66] == hash(key)[..63]
      && p[66..] == Ext(key) + Concat(ext)
  {
    var p := LegacyCacheFile(hash, key, ext);
    var h := hash(key);
    var head := h[0..2] + "/" + h[2..4] + "/" + h[4..6] + "/";
    var body, tail := head + h[6..63], Ext(key) + Concat(ext);
    assert p == body + tail;
    Seqs.ConcatSplit(body, tail);
    Seqs.ConcatSplit(head, h[6..63]);
    assert p[..66] == body;
    assert p[0..2] == head[0..2] == h[0..2] && p[3..5] == head[3..5] == h[2..4] && p[6..8] == head[6..8] == h[4..6];
    assert p[9..66] == body[9..] == h[6..63];
    assert h[0..2] + h[2..4] + h[4..6] + h[6..63] == h[..63];
  }

  /** Because the last digest character is dropped, two keys with the same
    * extension whose digests differ only in that character get the same
    * legacy cache file. */
  lemma LegacyCacheFileIgnoresLastDigit(hash: Hasher, k1: string, k2: string, ext: seq<string>)
    requires hash(k1)[..63] == hash(k2)[..63]
    requires Ext(k1) == Ext(k2)
    ensures LegacyCacheFile(hash, k1, ext) == LegacyCacheFile(hash, k2, ext)
  {
    var h1, h2 := hash(k1), hash(k2);
    assert h1[0..2] == h1[..63][0..2] == h2[0..2];
    assert h1[2..4] == h1[..63][2..4] == h2[2..4];
    assert h1[4..6] == h1[..63][4..6] == h2[4..6];
    assert h1[6..63] == h1[..63][6..63] == h2[6..63];
  }

  /** The zero-padded decimal form of an ID that `cachefileID` shards by. */
  function PaddedID(id: int): (s: string)
    ensures |s| >= 4
  {
    PadDigits(IntToDec(id), 4)
  }

  /** pkg/cli/icons.go `cachefileID(id, ext...)`: the extension is the
    * first of `ext`, "json" when there is none. */
  function CacheFileID(id: int, ext: seq<string>): string
  {
    var x := if |ext| > 0 then ext[0] else "json";
    var s := PaddedID(id);
    s[0..2] + "/" + s[2..4] + "/" + IntToDec(id) + "." + x
  }

  /** The padding loop of `cachefileID`, then the formatted path. */
  method CacheFileIDPath(id: Int64, ext: seq<string>) returns (path: string)
    ensures path == CacheFileID(id, ext)
  {
    var x := "json";
    if |ext| > 0 {
      x := ext[0];
    }
    var s := IntToDec(id);
    while |s| < 4
      invariant PadDigits(s, 4) == PaddedID(id)
      decreases 4 - |s|
    {
      s := "0" + s;
    }
    path := s[0..2] + "/" + s[2..4] + "/" + IntToDec(id) + "." + x;
  }

  /** The file name is the unpadded decimal ID and the extension; the two
    * directories come from the padded ID. */
  lemma CacheFileIDLayout(id: int, ext: seq<string>)
    ensures var p := CacheFileID(id, ext);
      var x := if |ext| > 0 then ext[0] else "json";
      p[..6] == PaddedID(id)[0..2] + "/" + PaddedID(id)[2..4] + "/"
      && p[6..] == IntToDec(id) + "." + x
  {
    var x := if |ext| > 0 then ext[0] else "json";
    var s := PaddedID(id);
    var head := s[0..2] + "/" + s[2..4] + "/";
    var tail := IntToDec(id) + "." + x;
    assert |head| == 6;
    assert CacheFileID(id, ext) == head + tail;
    Seqs.ConcatSplit(head, tail);
  }

  /** Distinct IDs never share a cache file. */
  lemma CacheFileIDInjective(a: int, b: int, ext: seq<string>)
    requires CacheFileID(a, ext) == CacheFileID(b, ext)
    ensures a == b
  {
    var x := if |ext| > 0 then ext[0] else "json";
    var p := CacheFileID(a, ext);
    CacheFileIDLayout(a, ext);
    CacheFileIDLayout(b, ext);
    var da, db := IntToDec(a), IntToDec(b);
    assert da + "." + x == db + "." + x;
    assert |da| == |db|;
    assert da == (da + "." + x)[..|da|];
    assert db == (db + "." + x)[..|db|];
    IntToDecInjective(a, b);
  }

  /** A short ID is padded for the directories only. */
  lemma CacheFileIDShortExample()
    ensures CacheFileID(5, []) == "00/05/5.json"
  {
    assert IntToDec(5) == "5";
    assert "0" + "5" == "05";
    assert PadDigits("5", 4) == PadDigits("05", 4);
    assert "0" + "05" == "005";
    assert PadDigits("05", 4) == PadDigits("005", 4);
  }

  /** A negative ID keeps its sign inside the padded directory part. */
  lemma CacheFileIDNegativeExample()
    ensures CacheFileID(-5, ["png"]) == "00/-5/-5.png"
  {
    assert IntToDec(-5) == "-5";
    assert "0" + "-5" == "0-5";
    assert PadDigits("-5", 4) == PadDigits("0-5", 4);
    assert PadDigits("0-5", 4) == "00-5";
    assert PaddedID(-5) == "00-5";
    CacheFileIDLayout(-5, ["png"]);
  }
}
