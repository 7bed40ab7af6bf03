/**
 * The PDF utilities: the text of a document as the concatenation of its pages' texts, and the
 * choice of the first PDF file in a directory listing.  The PDF reader and the file system are not
 * modelled: whether the file exists, the pages' texts (or a failure while reading) and the
 * directory listing are inputs.
 */
module PdfProcessor {
  import opened Wrappers
  import opened Text

  datatype PdfError = FileNotFound(path: string)

  /** Each page's text followed by a newline, in page order. */
  function PagesText(pages: seq<string>): string {
    if pages == [] then "" else PagesText(pages[..|pages| - 1]) + pages[|pages| - 1] + "\n"
  }

  /** The accumulated text is the pages joined by newlines, with one final newline. */
  lemma {:induction false} PagesTextIsJoin(pages: seq<string>)
    requires pages != []
    ensures PagesText(pages) == Join("\n", pages) + "\n"
    decreases |pages|
  {
    if |pages| > 1 {
      var init := pages[..|pages| - 1];
      PagesTextIsJoin(init);
      JoinSnoc("\n", init, pages[|pages| - 1]);
      assert init + [pages[|pages| - 1]] == pages;
    }
  }

  /**
   * `extract_text_from_pdf`: a missing file is an error before anything is read; `pages` is
   * `None` when reading raised, which gives ""; otherwise the stripped text of the pages.
   */
  method ExtractTextFromPdf(path: string, fileExists: bool, pages: Option<seq<string>>) returns (r: Result<string, PdfError>)
    ensures !fileExists ==> r == Err(FileNotFound(path))
    ensures fileExists && pages.None? ==> r == Ok("")
    ensures fileExists && pages.Some? ==> r == Ok(Strip(PagesText(pages.value)))
    ensures r.Ok? ==> r.value == [] || (!IsSpace(r.value[0]) && !IsSpace(r.value[|r.value| - 1]))
  {
    if !fileExists {
      return Err(FileNotFound(path));
    }
    if pages.None? {
      return Ok("");
    }
    var ps := pages.value;
    var text := "";
    var i := 0;
    while i < |ps|
      invariant 0 <= i <= |ps|
      invariant text == PagesText(ps[..i])
    {
      text := text + ps[i] + "\n";
      assert ps[..i + 1][..i] == ps[..i];
      i := i + 1;
    }
    assert ps[..i] == ps;
    r := Ok(Strip(text));
  }

  /** `os.path.join(directory, name)` on POSIX: an absolute name replaces the directory. */
  function PathJoin(directory: string, name: string): (r: string)
    ensures StartsWith(name, "/") ==> r == name
    ensures !StartsWith(name, "/") ==> StartsWith(r, directory) && EndsWith(r, name)
    ensures !StartsWith(name, "/") && (directory == "" || EndsWith(directory, "/")) ==> |r| == |directory| + |name|
    ensures !StartsWith(name, "/") && directory != "" && !EndsWith(directory, "/") ==>
              |r| == |directory| + 1 + |name| && r[|directory|] == '/'
  {
    if StartsWith(name, "/") then name
    else if directory == "" || EndsWith(directory, "/") then directory + name
    else directory + "/" + name
  }

  /** A name that `find_pdf_in_dir` accepts: it ends in `.pdf` in any case. */
  predicate IsPdfName(name: string) {
    EndsWith(Lower(name), ".pdf")
  }

  /**
   * `find_pdf_in_dir`, given the directory's listing in the order `os.listdir` returns it: the
   * first PDF name joined to the directory, or `None`.
   */
  method FindPdfInDir(directory: string, listing: seq<string>) returns (r: Option<string>)
    ensures r.Some? ==> exists k :: 0 <= k < |listing| && IsPdfName(listing[k]) && r.value == PathJoin(directory, listing[k])
                                    && forall j :: 0 <= j < k ==> !IsPdfName(listing[j])
    ensures r.None? <==> forall k :: 0 <= k < |listing| ==> !IsPdfName(listing[k])
  {
    var i := 0;
    while i < |listing|
      invariant 0 <= i <= |listing|
      invariant forall j :: 0 <= j < i ==> !IsPdfName(listing[j])
    {
      if IsPdfName(listing[i]) {
        return Some(PathJoin(directory, listing[i]));
      }
      i := i + 1;
    }
    return None;
  }
}
