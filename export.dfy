/**
 * The client-side PDF export of src/components/ExistingCVs.js: the layout is
 * rendered into an off-screen container, rasterised, scaled to the width of
 * an A4 page and cut into pages by drawing the same image shifted up by one
 * page height per page.
 *
 * Lengths are exact reals. The rasteriser is an input: it yields the
 * canvas size or fails.
 */
module Export {
  import opened Js
  import opened Document
  import Layout

  /** jsPDF's A4 page, 595.28 by 841.89 points, in millimetres (72 points to the inch, 25.4 mm to the inch). */
  const A4Width: real := 595.28 * 25.4 / 72.0
  const A4Height: real := 841.89 * 25.4 / 72.0

  /** The image keeps the canvas's aspect ratio at the page's width. */
  function ImageHeight(canvasWidth: real, canvasHeight: real, pdfWidth: real): (h: real)
    requires canvasWidth > 0.0
    ensures h * canvasWidth == canvasHeight * pdfWidth
    ensures canvasHeight >= 0.0 && pdfWidth > 0.0 ==> h >= 0.0
  {
    canvasHeight * pdfWidth / canvasWidth
  }

  /** The least integer not below x. */
  function Ceil(x: real): (n: int)
    ensures n as real >= x && (n - 1) as real < x
  {
    -((-x).Floor)
  }

  /** The number of pages an image of height h takes on pages of height p: at least one. */
  function PageCount(h: real, p: real): (n: nat)
    requires p > 0.0
  {
    var c := Ceil(h / p);
    if c < 1 then 1 else c
  }

  /** Scaling by a positive length keeps the order of page counts. */
  lemma ScaleLess(a: real, b: real, p: real)
    requires p > 0.0
    ensures a < b <==> a * p < b * p
    ensures a <= b <==> a * p <= b * p
  {
    assert b * p - a * p == (b - a) * p;
  }

  /**
   * PageCount is the least positive number of pages whose total height covers
   * the image: n pages cover it, n - 1 pages (when n > 1) do not.
   */
  lemma PageCountLeast(h: real, p: real)
    requires p > 0.0
    ensures var n := PageCount(h, p);
      n >= 1 && h <= n as real * p && (n == 1 || (n - 1) as real * p < h)
  {
    var q := h / p;
    var c := Ceil(q);
    var n := PageCount(h, p);
    assert q * p == h;
    assert q <= n as real;
    ScaleLess(q, n as real, p);
    assert h <= n as real * p;
    if n > 1 {
      assert n == c && (n - 1) as real < q;
      ScaleLess((n - 1) as real, q, p);
      assert (n - 1) as real * p < h;
    }
  }

  /** Fewer pages than PageCount do not cover the image. */
  lemma FewerPagesDoNotCover(h: real, p: real, m: int)
    requires p > 0.0 && h <= m as real * p
    ensures PageCount(h, p) <= m || m < 1
  {
    PageCountLeast(h, p);
    var n := PageCount(h, p);
    if n > 1 {
      var below, cover := (n - 1) as real * p, m as real * p;
      assert below < h <= cover;
      ScaleLess((n - 1) as real, m as real, p);
      assert (n - 1) as real < m as real;
      assert n - 1 < m;
    }
  }

  /** Any positive page count with that least-cover property is PageCount. */
  lemma PageCountUnique(h: real, p: real, m: int)
    requires p > 0.0 && m >= 1 && h <= m as real * p && (m == 1 || (m - 1) as real * p < h)
    ensures m == PageCount(h, p)
  {
    PageCountLeast(h, p);
    var n := PageCount(h, p);
    FewerPagesDoNotCover(h, p, m);
    if m > 1 {
      var below, cover := (m - 1) as real * p, n as real * p;
      assert below < h <= cover;
      ScaleLess((m - 1) as real, n as real, p);
      assert (m - 1) as real < n as real;
    }
  }

  lemma PageCountExamples(p: real)
    requires p > 0.0
    ensures PageCount(2.4 * p, p) == 3
    ensures PageCount(p, p) == 1 && PageCount(0.0, p) == 1 && PageCount(0.5 * p, p) == 1
    ensures PageCount(2.0 * p, p) == 2
  {
    PageCountUnique(2.4 * p, p, 3);
    PageCountUnique(p, p, 1);
    PageCountUnique(0.0, p, 1);
    PageCountUnique(0.5 * p, p, 1);
    PageCountUnique(2.0 * p, p, 2);
  }

  /**
   * The slicing loop: the first page draws the image at offset 0, and each
   * further page while image height is left draws it one page height higher.
   * Returns the vertical offset of the image on each page.
   */
  method Paginate(imgHeight: real, pdfHeight: real) returns (offsets: seq<real>)
    requires pdfHeight > 0.0
    ensures |offsets| == PageCount(imgHeight, pdfHeight)
    ensures forall k :: 0 <= k < |offsets| ==> offsets[k] == -(k as real) * pdfHeight
  {
    var heightLeft := imgHeight;
    var position := 0.0;
    offsets := [position];
    heightLeft := heightLeft - pdfHeight;
    ghost var n := PageCount(imgHeight, pdfHeight);
    PageCountLeast(imgHeight, pdfHeight);
    while heightLeft > 0.0
      invariant 1 <= |offsets| <= n
      invariant heightLeft == imgHeight - |offsets| as real * pdfHeight
      invariant position == -((|offsets| - 1) as real) * pdfHeight
      invariant |offsets| == 1 || (|offsets| - 1) as real * pdfHeight < imgHeight
      invariant forall k :: 0 <= k < |offsets| ==> offsets[k] == -(k as real) * pdfHeight
      decreases n - |offsets|
    {
      ScaleLess(|offsets| as real, n as real, pdfHeight);
      position := position - pdfHeight;
      offsets := offsets + [position];
      heightLeft := heightLeft - pdfHeight;
    }
    PageCountUnique(imgHeight, pdfHeight, |offsets|);
  }

  /**
   * The saved file's name: `(basic.name || "my_cv") + ".pdf"`. It always ends
   * in ".pdf" after a non-empty stem: the name when it is truthy, "my_cv" otherwise.
   */
  function FileName(cv: Cv): (name: string)
    ensures |name| > 4 && name[|name| - 4..] == ".pdf"
    ensures name[..|name| - 4] == if Truthy(Get(cv.basic, "name")) then Show(Get(cv.basic, "name")) else "my_cv"
  {
    Or(Get(cv.basic, "name"), "my_cv") + ".pdf"
  }

  /** What html2canvas yields for the container: a canvas of some size, or a thrown error. */
  datatype Raster = Rastered(width: real, height: real) | RasterFailed

  /** A saved PDF: its name, the page drawn, the image's height and its offset on each page. */
  datatype Pdf = Pdf(fileName: string, content: Layout.Page, imageHeight: real, offsets: seq<real>)

  /** The document body, as far as the export touches it: the off-screen containers attached to it. */
  class Body {
    var containers: nat

    constructor ()
      ensures containers == 0
    {
      containers := 0;
    }

    /**
     * handleDownloadClientPDF as written: a container is attached before the
     * rasteriser runs and removed only after the PDF is saved; when the
     * rasteriser throws, the handler only alerts and the container stays.
     */
    method Download(cv: Cv, raster: Raster) returns (saved: Option<Pdf>, alerted: bool)
      requires raster.Rastered? ==> raster.width > 0.0
      modifies this
      ensures raster.RasterFailed? <==> alerted
      ensures saved.Some? <==> raster.Rastered?
      ensures saved.Some? ==> saved.value == PdfFor(cv, raster.width, raster.height)
      ensures containers == old(containers) + (if alerted then 1 else 0)
    {
      containers := containers + 1;
      match raster
      case RasterFailed =>
        return None, true;
      case Rastered(w, h) =>
        var imgHeight := ImageHeight(w, h, A4Width);
        var offsets := Paginate(imgHeight, A4Height);
        OffsetsUnique(offsets, PageCount(imgHeight, A4Height), A4Height);
        saved := Some(Pdf(FileName(cv), Layout.Render(cv), imgHeight, offsets));
        containers := containers - 1;
        alerted := false;
    }

    /** The export with the container removed on both paths, as a `finally` block would. */
    method DownloadScoped(cv: Cv, raster: Raster) returns (saved: Option<Pdf>, alerted: bool)
      requires raster.Rastered? ==> raster.width > 0.0
      modifies this
      ensures raster.RasterFailed? <==> alerted
      ensures saved.Some? <==> raster.Rastered?
      ensures saved.Some? ==> saved.value == PdfFor(cv, raster.width, raster.height)
      ensures containers == old(containers)
    {
      saved, alerted := Download(cv, raster);
      if alerted {
        containers := containers - 1;
      }
    }
  }

  /** The PDF a canvas of the given size produces: the layout of cv, paginated onto A4. */
  function PdfFor(cv: Cv, canvasWidth: real, canvasHeight: real): (pdf: Pdf)
    requires canvasWidth > 0.0
    ensures pdf.fileName == FileName(cv) && pdf.content == Layout.Render(cv)
    ensures pdf.imageHeight * canvasWidth == canvasHeight * A4Width
    ensures |pdf.offsets| == PageCount(pdf.imageHeight, A4Height)
    ensures forall k :: 0 <= k < |pdf.offsets| ==> pdf.offsets[k] == -(k as real) * A4Height
  {
    var h := ImageHeight(canvasWidth, canvasHeight, A4Width);
    Pdf(FileName(cv), Layout.Render(cv), h, Offsets(PageCount(h, A4Height), A4Height))
  }

  /**
   * The offsets of n pages: the first page draws the image at 0, and each
   * further page one page height higher than the one before, so for a
   * positive page height every page shows a different slice.
   */
  function Offsets(n: nat, p: real): (o: seq<real>)
    ensures |o| == n
    ensures n > 0 ==> o[0] == 0.0
    ensures forall k :: 0 < k < n ==> o[k] == o[k - 1] - p
    ensures p > 0.0 ==> forall j, k :: 0 <= j < k < n ==> o[k] < o[j]
  {
    var o := seq(n, k => -(k as real) * p);
    assert p > 0.0 ==> forall j, k :: 0 <= j < k < n ==> o[k] < o[j] by {
      if p > 0.0 {
        forall j, k | 0 <= j < k < n ensures o[k] < o[j] {
          ScaleLess(j as real, k as real, p);
        }
      }
    }
    o
  }

  /** A sequence with the offsets of n pages is Offsets(n, p). */
  lemma OffsetsUnique(o: seq<real>, n: nat, p: real)
    requires |o| == n && forall k :: 0 <= k < n ==> o[k] == -(k as real) * p
    ensures o == Offsets(n, p)
  {
    assert forall k :: 0 <= k < n ==> Offsets(n, p)[k] == o[k];
  }

  /** Every failed export leaves one more container attached to the page. */
  method FailedExportsLeak(cv: Cv) returns (body: Body)
    ensures body.containers == 2
  {
    body := new Body();
    var s1, a1 := body.Download(cv, RasterFailed);
    var s2, a2 := body.Download(cv, RasterFailed);
  }

  /** With the scoped export, failures leave nothing behind. */
  method ScopedExportsDoNotLeak(cv: Cv) returns (body: Body)
    ensures body.containers == 0
  {
    body := new Body();
    var s1, a1 := body.DownloadScoped(cv, RasterFailed);
    var s2, a2 := body.DownloadScoped(cv, Rastered(1600.0, 3000.0));
  }
}
