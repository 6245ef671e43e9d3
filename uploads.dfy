// Upload validation: which file names the upload endpoint accepts as videos.

module Uploads {
  import opened Wrappers

  const AllowedExtensions: set<string> := {"mp4", "avi", "mov", "mkv", "webm"}

  /** i is the position of the last c in s. */
  predicate IsLastIndex(s: string, c: char, i: int)
  {
    0 <= i < |s| && s[i] == c && forall j :: i < j < |s| ==> s[j] != c
  }

  lemma LastIndexUnique(s: string, c: char, i: int, k: int)
    requires IsLastIndex(s, c, i) && IsLastIndex(s, c, k)
    ensures i == k
  {
  }

  lemma LastIndexesAgree(s: string, i: int)
    requires IsLastIndex(s, '.', i)
    ensures forall k :: IsLastIndex(s, '.', k) ==> k == i
  {
    forall k | IsLastIndex(s, '.', k)
      ensures k == i
    {
      LastIndexUnique(s, '.', i, k);
    }
  }

  /** Index of the last occurrence of c in s. */
  function LastIndexOf(s: string, c: char): (r: Option<nat>)
    ensures r.None? ==> forall j :: 0 <= j < |s| ==> s[j] != c
    ensures r.Some? ==> IsLastIndex(s, c, r.value)
  {
    if |s| == 0 then None
    else if s[|s| - 1] == c then Some(|s| - 1)
    else LastIndexOf(s[..|s| - 1], c)
  }

  /** Lower-casing of ASCII letters; other characters are kept. */
  function ToLower(s: string): (r: string)
    ensures |r| == |s|
    ensures forall i :: 0 <= i < |s| ==>
      r[i] == (if 'A' <= s[i] <= 'Z' then (s[i] as int + 32) as char else s[i])
  {
    if |s| == 0 then [] else
      var c := s[0];
      [if 'A' <= c <= 'Z' then (c as int + 32) as char else c] + ToLower(s[1..])
  }

  /**
   * allowed_file: the name contains a dot and the text after its last dot, lower-cased,
   * is one of the video extensions.
   */
  function AllowedFile(filename: string): (ok: bool)
    ensures (forall j :: 0 <= j < |filename| ==> filename[j] != '.') ==> !ok
    ensures forall i :: IsLastIndex(filename, '.', i) ==>
      (ok <==> ToLower(filename[i + 1..]) in AllowedExtensions)
  {
    match LastIndexOf(filename, '.')
    case None => false
    case Some(i) =>
      LastIndexesAgree(filename, i);
      ToLower(filename[i + 1..]) in AllowedExtensions
  }

  /** A video extension is accepted in any letter case, after the last of several dots. */
  lemma AcceptedNames()
    ensures AllowedFile("squat.MP4") && AllowedFile("a.b.webm")
  {
    assert IsLastIndex("squat.MP4", '.', 5) && "squat.MP4"[6..] == "MP4";
    assert ToLower("MP4") == "mp4";
    assert IsLastIndex("a.b.webm", '.', 3) && "a.b.webm"[4..] == "webm";
    assert ToLower("webm") == "webm";
  }

  /** A name without a dot is refused. */
  lemma RefusedWithoutDot()
    ensures !AllowedFile("mp4")
  {
    assert forall j :: 0 <= j < |"mp4"| ==> "mp4"[j] != '.';
  }

  /** Only the text after the last dot counts, so a video extension in the middle does not. */
  lemma RefusedOtherExtension()
    ensures !AllowedFile("clip.mp4.txt")
  {
    var s := "clip.mp4.txt";
    assert IsLastIndex(s, '.', 8) && s[9..] == "txt";
    assert ToLower("txt") == "txt";
  }

  /** A name ending in a dot has an empty extension, which is refused. */
  lemma RefusedEmptyExtension()
    ensures !AllowedFile("clip.")
  {
    assert IsLastIndex("clip.", '.', 4) && "clip."[5..] == "";
  }
}
