/**
 * The groups `initialize` registers at startup: one endpoint list per group,
 * the group map they build, and what that map contains.
 */
module StartupTable {
  import opened Endpoints

  // The groups registered at startup, one list per group, in source order.

  const PageOpsEndpoints: seq<string> := [
    "remove-pages", "merge-pdfs", "split-pdfs", "pdf-organizer", "rotate-pdf",
    "multi-page-layout", "scale-pages", "adjust-contrast", "crop", "auto-split-pdf",
    "extract-page", "pdf-to-single-page", "split-by-size-or-count", "overlay-pdf",
    "split-pdf-by-sections"]

  const ConvertEndpoints: seq<string> := [
    "pdf-to-img", "img-to-pdf", "pdf-to-pdfa", "file-to-pdf", "xlsx-to-pdf",
    "pdf-to-word", "pdf-to-presentation", "pdf-to-text", "pdf-to-html", "pdf-to-xml",
    "html-to-pdf", "url-to-pdf", "markdown-to-pdf", "pdf-to-csv"]

  const SecurityEndpoints: seq<string> := [
    "add-password", "remove-password", "change-permissions", "add-watermark",
    "cert-sign", "sanitize-pdf", "auto-redact"]

  const OtherEndpoints: seq<string> := [
    "ocr-pdf", "add-image", "compress-pdf", "extract-images", "change-metadata",
    "extract-image-scans", "sign", "flatten", "repair", "remove-blanks",
    "remove-annotations", "compare", "add-page-numbers", "auto-rename",
    "get-info-on-pdf", "show-javascript"]

  const CliEndpoints: seq<string> := [
    "compress-pdf", "extract-image-scans", "repair", "pdf-to-pdfa", "file-to-pdf",
    "xlsx-to-pdf", "pdf-to-word", "pdf-to-presentation", "pdf-to-text", "pdf-to-html",
    "pdf-to-xml", "ocr-pdf", "html-to-pdf", "url-to-pdf", "book-to-pdf", "pdf-to-book"]

  const CalibreEndpoints: seq<string> := ["book-to-pdf", "pdf-to-book"]

  const PythonEndpoints: seq<string> := ["extract-image-scans", "remove-blanks", "html-to-pdf", "url-to-pdf"]

  const OpenCvEndpoints: seq<string> := ["extract-image-scans", "remove-blanks"]

  const LibreOfficeEndpoints: seq<string> := [
    "repair", "file-to-pdf", "xlsx-to-pdf", "pdf-to-word", "pdf-to-presentation",
    "pdf-to-text", "pdf-to-html", "pdf-to-xml"]

  const OcrMyPdfEndpoints: seq<string> := ["compress-pdf", "pdf-to-pdfa", "ocr-pdf"]

  const JavaEndpoints: seq<string> := [
    "merge-pdfs", "remove-pages", "split-pdfs", "pdf-organizer", "rotate-pdf",
    "pdf-to-img", "img-to-pdf", "add-password", "remove-password", "change-permissions",
    "add-watermark", "add-image", "extract-images", "change-metadata", "cert-sign",
    "multi-page-layout", "scale-pages", "add-page-numbers", "auto-rename", "auto-split-pdf",
    "sanitize-pdf", "crop", "get-info-on-pdf", "extract-page", "pdf-to-single-page",
    "markdown-to-pdf", "show-javascript", "auto-redact", "pdf-to-csv",
    "split-by-size-or-count", "overlay-pdf", "split-pdf-by-sections", "remove-blanks"]

  const JavascriptEndpoints: seq<string> := ["pdf-organizer", "sign", "compare", "adjust-contrast"]

  /** The names of the twelve startup groups. */
  const StartupNames: set<string> := {"PageOps", "Convert", "Security", "Other", "CLI", "Calibre",
                                      "Python", "OpenCV", "LibreOffice", "OCRmyPDF", "Java", "Javascript"}

  /** The group map after `initialize`'s twelve `addEndpointsToGroup` calls, in source order. */
  function InitializedGroups(groups: Groups): Groups {
    var g1 := WithEndpoints(groups, "PageOps", PageOpsEndpoints);
    var g2 := WithEndpoints(g1, "Convert", ConvertEndpoints);
    var g3 := WithEndpoints(g2, "Security", SecurityEndpoints);
    var g4 := WithEndpoints(g3, "Other", OtherEndpoints);
    var g5 := WithEndpoints(g4, "CLI", CliEndpoints);
    var g6 := WithEndpoints(g5, "Calibre", CalibreEndpoints);
    var g7 := WithEndpoints(g6, "Python", PythonEndpoints);
    var g8 := WithEndpoints(g7, "OpenCV", OpenCvEndpoints);
    var g9 := WithEndpoints(g8, "LibreOffice", LibreOfficeEndpoints);
    var g10 := WithEndpoints(g9, "OCRmyPDF", OcrMyPdfEndpoints);
    var g11 := WithEndpoints(g10, "Java", JavaEndpoints);
    var g12 := WithEndpoints(g11, "Javascript", JavascriptEndpoints);
    g12
  }

  /** The endpoints the startup table lists for `group`: the union of every list `initialize` files under that name. */
  function StartupMembers(group: string): set<string> {
    ListedUnder(group, "PageOps", PageOpsEndpoints) +
    ListedUnder(group, "Convert", ConvertEndpoints) +
    ListedUnder(group, "Security", SecurityEndpoints) +
    ListedUnder(group, "Other", OtherEndpoints) +
    ListedUnder(group, "CLI", CliEndpoints) +
    ListedUnder(group, "Calibre", CalibreEndpoints) +
    ListedUnder(group, "Python", PythonEndpoints) +
    ListedUnder(group, "OpenCV", OpenCvEndpoints) +
    ListedUnder(group, "LibreOffice", LibreOfficeEndpoints) +
    ListedUnder(group, "OCRmyPDF", OcrMyPdfEndpoints) +
    ListedUnder(group, "Java", JavaEndpoints) +
    ListedUnder(group, "Javascript", JavascriptEndpoints)
  }

  /** The startup table: each of the twelve startup groups with the endpoints listed for it. */
  function StartupGroups(): Groups {
    map group | group in StartupNames :: StartupMembers(group)
  }

  /** A name outside the twelve startup groups has no listed endpoints. */
  lemma UnlistedGroup(group: string)
    requires group !in StartupNames
    ensures StartupMembers(group) == {}
  {
  }

  /** `initialize` adds exactly the twelve startup group names to the groups it finds. */
  lemma InitializedNames(groups: Groups)
    ensures InitializedGroups(groups).Keys == groups.Keys + StartupNames
  {
  }

  /** After `initialize` every group holds what it held before plus what the startup table lists for it. */
  lemma InitializedMembers(groups: Groups, group: string)
    ensures GroupMembers(InitializedGroups(groups), group) == GroupMembers(groups, group) + StartupMembers(group)
  {
    WithEndpointsMembers(groups, "PageOps", PageOpsEndpoints, group);
    var g1 := WithEndpoints(groups, "PageOps", PageOpsEndpoints);
    WithEndpointsMembers(g1, "Convert", ConvertEndpoints, group);
    var g2 := WithEndpoints(g1, "Convert", ConvertEndpoints);
    WithEndpointsMembers(g2, "Security", SecurityEndpoints, group);
    var g3 := WithEndpoints(g2, "Security", SecurityEndpoints);
    WithEndpointsMembers(g3, "Other", OtherEndpoints, group);
    var g4 := WithEndpoints(g3, "Other", OtherEndpoints);
    WithEndpointsMembers(g4, "CLI", CliEndpoints, group);
    var g5 := WithEndpoints(g4, "CLI", CliEndpoints);
    WithEndpointsMembers(g5, "Calibre", CalibreEndpoints, group);
    var g6 := WithEndpoints(g5, "Calibre", CalibreEndpoints);
    WithEndpointsMembers(g6, "Python", PythonEndpoints, group);
    var g7 := WithEndpoints(g6, "Python", PythonEndpoints);
    WithEndpointsMembers(g7, "OpenCV", OpenCvEndpoints, group);
    var g8 := WithEndpoints(g7, "OpenCV", OpenCvEndpoints);
    WithEndpointsMembers(g8, "LibreOffice", LibreOfficeEndpoints, group);
    var g9 := WithEndpoints(g8, "LibreOffice", LibreOfficeEndpoints);
    WithEndpointsMembers(g9, "OCRmyPDF", OcrMyPdfEndpoints, group);
    var g10 := WithEndpoints(g9, "OCRmyPDF", OcrMyPdfEndpoints);
    WithEndpointsMembers(g10, "Java", JavaEndpoints, group);
    var g11 := WithEndpoints(g10, "Java", JavaEndpoints);
    WithEndpointsMembers(g11, "Javascript", JavascriptEndpoints, group);
  }

  /** The startup table names exactly the twelve groups of `initialize`. */
  lemma StartupGroupNames()
    ensures StartupGroups().Keys == StartupNames
  {
  }

  /** Every group of the startup table holds exactly the endpoints listed for it; any other name holds none. */
  lemma StartupGroupMembers(group: string)
    ensures GroupMembers(StartupGroups(), group) == StartupMembers(group)
  {
  }

  /** `initialize` merges the startup table into the groups it finds: a group already present keeps its members and gains the listed ones. */
  lemma InitializedIsMerge(groups: Groups)
    ensures InitializedGroups(groups) == MergedGroups(groups, StartupGroups())
  {
    InitializedNames(groups);
    StartupGroupNames();
    forall group
      ensures GroupMembers(InitializedGroups(groups), group) == GroupMembers(groups, group) + GroupMembers(StartupGroups(), group)
    {
      InitializedMembers(groups, group);
      StartupGroupMembers(group);
    }
    MergedByMembers(InitializedGroups(groups), groups, StartupGroups());
  }

  /** The twelve group names are distinct. */
  lemma StartupNamesDistinct()
    ensures |StartupNames| == 12
  {
  }

  /** The startup table holds twelve groups. */
  lemma StartupGroupCount()
    ensures |StartupGroups().Keys| == 12
  {
    StartupGroupNames();
    StartupNamesDistinct();
  }

  /** Calibre bundles the two book converters, OpenCV the two scan tools. */
  lemma StartupCalibreAndOpenCv()
    ensures StartupGroups()["Calibre"] == {"book-to-pdf", "pdf-to-book"}
    ensures StartupGroups()["OpenCV"] == {"extract-image-scans", "remove-blanks"}
  {
    assert Elements(CalibreEndpoints) == {"book-to-pdf", "pdf-to-book"};
    assert Elements(OpenCvEndpoints) == {"extract-image-scans", "remove-blanks"};
  }
}
