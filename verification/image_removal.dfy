/**
 * The download name chosen by the image-removal endpoint: the uploaded file's
 * original name with its final extension stripped by
 * `replaceFirst("[.][^.]+$", "")`, followed by `_removed_images.pdf`.
 */
module ImageRemoval {

  /** What the endpoint appends to the stripped name. */
  const Suffix: string := "_removed_images.pdf"

  /**
   * The pattern `[.][^.]+$` matches `s` starting at index `i`: a `.`, then
   * one or more characters other than `.`, running to the end of `s`.
   */
  predicate ExtensionAt(s: string, i: int) {
    0 <= i < |s| - 1 && s[i] == '.' && forall j :: i < j < |s| ==> s[j] != '.'
  }

  /** The pattern matches `s` at one index at most, so "first" match is "the" match. */
  lemma ExtensionAtUnique(s: string, i: int, j: int)
    requires ExtensionAt(s, i) && ExtensionAt(s, j)
    ensures i == j
  {
  }

  /** The length of the longest run of characters other than `.` that ends `s`. */
  function DotFreeTailLength(s: string): (n: nat)
    ensures n <= |s|
    ensures forall j :: |s| - n <= j < |s| ==> s[j] != '.'
    ensures n < |s| ==> s[|s| - 1 - n] == '.'
  {
    if s == [] || s[|s| - 1] == '.' then 0 else 1 + DotFreeTailLength(s[..|s| - 1])
  }

  /**
   * `name.replaceFirst("[.][^.]+$", "")`: when the pattern matches, the part
   * of `name` before the match; otherwise `name` unchanged. The result is a
   * prefix of `name`, and what is cut off is exactly one match of the pattern.
   */
  function StripExtension(name: string): (stem: string)
    ensures |stem| <= |name| && stem == name[..|stem|]
    ensures stem != name <==> ExtensionAt(name, |stem|)
    ensures stem == name <==> forall i :: !ExtensionAt(name, i)
  {
    var n := DotFreeTailLength(name);
    if 0 < n < |name| then name[..|name| - 1 - n] else name
  }

  /**
   * The name under which `removeImages` returns the processed document. It
   * always ends with the suffix, and what comes before the suffix is the
   * original name, less its final extension exactly when it has one.
   */
  function RemovedImagesFileName(originalName: string): (fileName: string)
    ensures |fileName| >= |Suffix|
    ensures fileName[|fileName| - |Suffix|..] == Suffix
    ensures var stem := fileName[..|fileName| - |Suffix|];
      |stem| <= |originalName| && stem == originalName[..|stem|] &&
      (stem == originalName || ExtensionAt(originalName, |stem|)) &&
      (stem == originalName <==> forall i :: !ExtensionAt(originalName, i))
  {
    var stem := StripExtension(originalName);
    var r := stem + Suffix;
    assert r[..|r| - |Suffix|] == stem;
    r
  }

  /** A name without any `.` is kept whole in front of the suffix. */
  lemma NoDotKeepsName(name: string)
    requires forall i :: 0 <= i < |name| ==> name[i] != '.'
    ensures RemovedImagesFileName(name) == name + Suffix
  {
  }

  /**
   * Only the final extension goes: for a non-empty `ext` without `.`, the
   * name `stem.ext` loses `.ext` and nothing more, whatever `stem` holds.
   */
  lemma OnlyFinalExtensionRemoved(stem: string, ext: string)
    requires ext != []
    requires forall i :: 0 <= i < |ext| ==> ext[i] != '.'
    ensures StripExtension(stem + "." + ext) == stem
    ensures RemovedImagesFileName(stem + "." + ext) == stem + Suffix
  {
    var s := stem + "." + ext;
    assert ExtensionAt(s, |stem|);
    var r := StripExtension(s);
    ExtensionAtUnique(s, |r|, |stem|);
  }

  /** `a.b.c` becomes `a.b` followed by the suffix: the inner dot stays. */
  lemma InnerDotsKept()
    ensures RemovedImagesFileName("a.b.c") == "a.b" + Suffix
  {
  }

  /** A name ending in a bare `.` is left as it is, since `[^.]+` needs one character. */
  lemma TrailingDotKept(name: string)
    ensures StripExtension(name + ".") == name + "."
  {
  }

  /** A name that is only an extension, such as `.pdf`, leaves just the suffix. */
  lemma ExtensionOnlyName(ext: string)
    requires ext != []
    requires forall i :: 0 <= i < |ext| ==> ext[i] != '.'
    ensures RemovedImagesFileName("." + ext) == Suffix
  {
    OnlyFinalExtensionRemoved("", ext);
    assert "" + "." + ext == "." + ext;
  }
}
