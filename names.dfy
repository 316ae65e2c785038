/** File names in the album directory: which ones the listing accepts as
    images, and how a directory entry becomes the path the album keys its
    rotation and order maps by. */
module Names {
  import opened Collections

  /** The extensions the listing accepts, compared after lower-casing. */
  const ImageExtensions: seq<string> := [".png", ".jpg", ".jpeg", ".gif", ".bmp", ".heic"]

  /** The directory every image lives in. */
  const AlbumDir: string := "album"

  function LowerChar(c: char): char {
    if 'A' <= c <= 'Z' then (c as int + 32) as char else c
  }

  /** `str.lower()`, for ASCII letters. */
  function Lower(s: string): string {
    seq(|s|, i requires 0 <= i < |s| => LowerChar(s[i]))
  }

  predicate EndsWith(s: string, suffix: string) {
    |suffix| <= |s| && s[|s| - |suffix|..] == suffix
  }

  /** `name.lower().endswith(('.png', '.jpg', '.jpeg', '.gif', '.bmp', '.heic'))` */
  predicate IsImageName(name: string) {
    exists ext :: ext in ImageExtensions && EndsWith(Lower(name), ext)
  }

  /** A name whose last character is not the last character of any accepted
      extension is never an image. */
  lemma NotImageByLastChar(name: string)
    requires name != [] && LowerChar(name[|name| - 1]) !in {'g', 'f', 'p', 'c'}
    ensures !IsImageName(name)
  {
    var low := Lower(name);
    forall ext | ext in ImageExtensions
      ensures !EndsWith(low, ext)
    {
      assert low[|low| - 1] == LowerChar(name[|name| - 1]);
      assert ext[|ext| - 1] in {'g', 'f', 'p', 'c'};
      if |ext| <= |low| {
        assert low[|low| - |ext|..][|ext| - 1] == low[|low| - 1];
      }
    }
  }

  /** The two sidecar files, and any other `.json` file, are never listed. */
  lemma JsonNeverListed(base: string)
    ensures !IsImageName(base + ".json")
    ensures !IsImageName("rotations.json") && !IsImageName("image_order.json")
  {
    NotImageByLastChar(base + ".json");
    NotImageByLastChar("rotations.json");
    NotImageByLastChar("image_order.json");
  }

  /** The check ignores case: `X.PNG`, or any name ending in `.PNG`, is listed. */
  lemma UpperCasePngListed(base: string)
    ensures IsImageName(base + ".PNG")
    ensures IsImageName("X.PNG")
  {
    forall b: string
      ensures EndsWith(Lower(b + ".PNG"), ".png")
    {
      var low := Lower(b + ".PNG");
      assert low[|low| - 4..] == ".png";
    }
    assert ".png" in ImageExtensions;
  }

  /** Lower-casing a name first does not change whether it is an image. */
  lemma IsImageNameIgnoresCase(name: string)
    ensures IsImageName(Lower(name)) <==> IsImageName(name)
  {
  }

  /** `os.path.join(dir, name)` for a plain file name. */
  function Join(dir: string, name: string): string {
    dir + "/" + name
  }

  /** Two entries of one directory have the same path only if they are the same entry. */
  lemma JoinInjective(dir: string, a: string, b: string)
    requires Join(dir, a) == Join(dir, b)
    ensures a == b
  {
    assert a == Join(dir, a)[|dir| + 1..];
    assert b == Join(dir, b)[|dir| + 1..];
  }

  /** The directory entry a path names, if the path lies in `dir`. */
  function EntryOf(dir: string, p: string): (r: Option<string>)
    ensures r.Some? ==> Join(dir, r.value) == p
    ensures forall name :: Join(dir, name) == p ==> r == Some(name)
  {
    if |dir| < |p| && p[..|dir| + 1] == dir + "/" then
      assert p == p[..|dir| + 1] + p[|dir| + 1..];
      Some(p[|dir| + 1..])
    else
      assert forall name :: Join(dir, name)[..|dir| + 1] == dir + "/";
      None
  }
}
