/**
 * pkg/upload/file.go: the pure rules an upload passes through. Go's `path.Ext`
 * picks the extension, `GetFileName` hashes the stem and keeps the extension,
 * `CheckContainExt` matches the extension against the configured allow-list
 * ignoring ASCII letter case, and `CheckMaxSize` compares the byte count with
 * the configured limit in megabytes. The MD5 digest is a function parameter.
 */
module Upload {
  import opened GoInts
  import opened Wrappers

  type FileType = int

  /** The only upload type the service knows (`iota + 1`). */
  const TypeImage: FileType := 1

  // ---------------------------------------------------------------------------
  // path.Ext

  predicate NoSlashIn(name: string, from: nat, to: nat)
    requires from <= to <= |name|
  {
    forall i :: from <= i < to ==> name[i] != '/'
  }

  predicate NoDotIn(name: string, from: nat, to: nat)
    requires from <= to <= |name|
  {
    forall i :: from <= i < to ==> name[i] != '.'
  }

  /** The last slash-separated element of `name` contains a '.'. */
  predicate FinalElementHasDot(name: string)
  {
    exists j :: 0 <= j < |name| && name[j] == '.' && NoSlashIn(name, j + 1, |name|)
  }

  /**
   * The backward scan of `path.Ext` over `name[..k]`: stops with no result at
   * a '/', and at the first '.' it meets.
   */
  function ExtDotIndex(name: string, k: nat): (r: Option<nat>)
    requires k <= |name|
    ensures r.Some? ==>
      (r.value < k && name[r.value] == '.' && NoSlashIn(name, r.value, k) && NoDotIn(name, r.value + 1, k))
    ensures r.None? ==> forall j :: 0 <= j < k && name[j] == '.' ==> !NoSlashIn(name, j + 1, k)
    decreases k
  {
    if k == 0 then None
    else if name[k - 1] == '/' then None
    else if name[k - 1] == '.' then Some(k - 1)
    else ExtDotIndex(name, k - 1)
  }

  /** The shape every extension has: empty, or one leading '.' and no other '.' or any '/'. */
  predicate IsExtShaped(ext: string)
  {
    ext == "" || (ext[0] == '.' && (forall i :: 1 <= i < |ext| ==> ext[i] != '.') && (forall i :: 0 <= i < |ext| ==> ext[i] != '/'))
  }

  /** `GetFileExt`, which is Go's `path.Ext`. */
  function Ext(name: string): (r: string)
    ensures |r| <= |name| && r == name[|name| - |r|..]
    ensures IsExtShaped(r)
    ensures r == "" <==> !FinalElementHasDot(name)
  {
    match ExtDotIndex(name, |name|)
    case Some(i) =>
      assert NoSlashIn(name, i + 1, |name|);
      var r := name[i..];
      assert forall j :: 1 <= j < |r| ==> r[j] == name[i + j];
      r
    case None => ""
  }

  /** Applying `Ext` to an extension gives the extension back. */
  lemma ExtOfExt(name: string)
    ensures Ext(Ext(name)) == Ext(name)
  {
    var e := Ext(name);
    if e != "" {
      assert NoSlashIn(e, 1, |e|);
      assert FinalElementHasDot(e);
      var f := Ext(e);
      var m := |e| - |f|;
      assert f[0] == e[m];
      assert m == 0;
    }
  }

  // ---------------------------------------------------------------------------
  // Letter case (strings.ToUpper, restricted to ASCII)

  function UpperChar(c: char): char
  {
    if 'a' <= c <= 'z' then (c as int - 32) as char else c
  }

  function ToUpper(s: string): (r: string)
    ensures |r| == |s| && forall i :: 0 <= i < |s| ==> r[i] == UpperChar(s[i])
  {
    seq(|s|, i requires 0 <= i < |s| => UpperChar(s[i]))
  }

  /** Upper-casing moves no '.' or '/', so the extension scan stops at the same index. */
  lemma {:induction false} ExtDotIndexUpper(name: string, k: nat)
    requires k <= |name|
    ensures ExtDotIndex(ToUpper(name), k) == ExtDotIndex(name, k)
    decreases k
  {
    if k > 0 {
      ExtDotIndexUpper(name, k - 1);
    }
  }

  /** The extension of the upper-cased name is the upper-cased extension. */
  lemma ExtUpperCommutes(name: string)
    ensures Ext(ToUpper(name)) == ToUpper(Ext(name))
  {
    var upper := ToUpper(name);
    ExtDotIndexUpper(name, |name|);
    var k := ExtDotIndex(name, |name|);
    assert ExtDotIndex(upper, |upper|) == k;
    if k.Some? {
      var i := k.value;
      assert upper[i..] == ToUpper(name[i..]);
    }
  }

  // ---------------------------------------------------------------------------
  // GetFileName

  predicate HasSuffix(s: string, suffix: string)
  {
    |suffix| <= |s| && s[|s| - |suffix|..] == suffix
  }

  /** `strings.TrimSuffix`. */
  function TrimSuffix(s: string, suffix: string): (r: string)
    ensures HasSuffix(s, suffix) ==> r + suffix == s
    ensures !HasSuffix(s, suffix) ==> r == s
  {
    if HasSuffix(s, suffix) then s[..|s| - |suffix|] else s
  }

  /** The name without its extension. */
  function Stem(name: string): (r: string)
    ensures r + Ext(name) == name
  {
    var ext := Ext(name);
    assert name[..|name| - |ext|] + ext == name;
    TrimSuffix(name, ext)
  }

  /** `GetFileName`: the MD5 digest of the stem followed by the original extension. */
  function GetFileName(md5: string -> string, name: string): (r: string)
    ensures |r| >= |Ext(name)| && r[|r| - |Ext(name)|..] == Ext(name)
    ensures r[..|r| - |Ext(name)|] == md5(Stem(name))
  {
    var ext := Ext(name);
    var fileName := TrimSuffix(name, ext);
    var fileName' := md5(fileName);
    fileName' + ext
  }

  predicate IsHexDigest(d: string)
  {
    forall i :: 0 <= i < |d| ==> '0' <= d[i] <= '9' || 'a' <= d[i] <= 'f'
  }

  /** A digest has no '.', so an extension appended to it is the extension of the result. */
  lemma ExtAfterDigest(hex: string, ext: string)
    requires IsHexDigest(hex) && IsExtShaped(ext)
    ensures Ext(hex + ext) == ext
  {
    var x := hex + ext;
    assert forall i :: 0 <= i < |hex| ==> x[i] == hex[i];
    assert forall i :: |hex| <= i < |x| ==> x[i] == ext[i - |hex|];
    if ext == "" {
      assert !FinalElementHasDot(x);
    } else {
      assert x[|hex|] == '.' && NoSlashIn(x, |hex| + 1, |x|);
      assert FinalElementHasDot(x);
      var f := Ext(x);
      var m := |x| - |f|;
      assert x[m] == f[0] == '.';
      assert m == |hex|;
    }
  }

  /** With a hex digest for the stem, the stored name has the same extension as the upload. */
  lemma GetFileNameKeepsExt(md5: string -> string, name: string)
    requires forall s :: IsHexDigest(md5(s))
    ensures Ext(GetFileName(md5, name)) == Ext(name)
  {
    var hex := md5(Stem(name));
    assert IsHexDigest(hex);
    assert GetFileName(md5, name) == hex + Ext(name);
    ExtAfterDigest(hex, Ext(name));
  }

  // ---------------------------------------------------------------------------
  // CheckContainExt and CheckMaxSize

  /** Whether some allow-list entry equals `upperExt` once upper-cased. */
  function AllowListHas(allowExts: seq<string>, upperExt: string): (r: bool)
    ensures r <==> exists i :: 0 <= i < |allowExts| && ToUpper(allowExts[i]) == upperExt
  {
    if |allowExts| == 0 then false
    else if ToUpper(allowExts[0]) == upperExt then true
    else
      var r := AllowListHas(allowExts[1..], upperExt);
      assert forall i :: 1 <= i < |allowExts| ==> allowExts[i] == allowExts[1..][i - 1];
      r
  }

  /** `CheckContainExt`: only image uploads are accepted, and only with a listed extension. */
  function CheckContainExt(t: FileType, name: string, allowExts: seq<string>): (r: bool)
    ensures r <==>
      (t == TypeImage && exists i :: 0 <= i < |allowExts| && ToUpper(allowExts[i]) == ToUpper(Ext(name)))
  {
    var ext := ToUpper(Ext(name));
    if t == TypeImage then AllowListHas(allowExts, ext) else false
  }

  /** Two names that agree up to ASCII letter case get the same answer. */
  lemma CheckContainExtIgnoresCase(t: FileType, a: string, b: string, allowExts: seq<string>)
    requires ToUpper(a) == ToUpper(b)
    ensures CheckContainExt(t, a, allowExts) == CheckContainExt(t, b, allowExts)
  {
    ExtUpperCommutes(a);
    ExtUpperCommutes(b);
  }

  /**
   * The size comparison of `CheckMaxSize` (true means too big); `size` is the
   * byte count of the uploaded content and `maxSizeMB` the configured limit.
   */
  function CheckMaxSize(t: FileType, size: nat, maxSizeMB: int64): (r: bool)
    ensures t != TypeImage ==> !r
    ensures InInt64(maxSizeMB * 1024 * 1024) ==> (r <==> t == TypeImage && size >= maxSizeMB * 1024 * 1024)
  {
    t == TypeImage && size >= WrapInt64(maxSizeMB * 1024 * 1024)
  }
}
