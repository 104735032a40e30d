/**
 * Saving the note card (platform/save.ts). Both exporters mark the page as
 * exporting, capture the card as a PNG data URL, deliver the result, report
 * any failure with an alert, and unmark the page on every path. The
 * capture primitive (html-to-image) and the PDF library (jsPDF) are
 * parameters: a capture either yields a data URL or fails.
 */
module Save {
  import opened Wrappers
  import JsText

  /** The body class set while an export runs. */
  const ExportingClass := "is-exporting"

  const PngFailureAlert := "Failed to generate image. Please try again."
  const PdfFailureAlert := "Failed to generate PDF."

  /** The page margin, in the PDF's units (mm), left and right of the image. */
  const Margin: real := 20.0

  /** Inline style the capture applies to the cloned card. */
  datatype StyleOverrides = StyleOverrides(width: Option<string>, height: Option<string>, fixed: seq<(string, string)>)

  /** The options handed to `toPng`. */
  datatype CaptureOptions = CaptureOptions(
    quality: real,
    pixelRatio: nat,
    backgroundColor: Option<string>,
    skipFonts: bool,
    width: Option<int>,
    height: Option<int>,
    style: Option<StyleOverrides>)

  /** Outcome of one call of the capture primitive. */
  datatype Capture = Captured(dataUrl: string) | CaptureFailed

  /** A capture call, with whether the page was marked as exporting at that moment. */
  datatype CaptureCall = CaptureCall(options: CaptureOptions, exporting: bool)

  /** The optional `{ width, height }` argument of `exportToPNG`. */
  datatype SizeOptions = SizeOptions(width: Option<int>, height: Option<int>)

  datatype ImageDims = ImageDims(width: real, height: real)

  /** What `getImageProperties` reports of a decodable image: its width is positive. */
  type ImageProps = d: ImageDims | d.width > 0.0 witness ImageDims(1.0, 1.0)

  datatype PageSize = PageSize(width: real, height: real)

  /** Where `addImage` puts the image on the page: top-left corner and size. */
  datatype Placement = Placement(x: real, y: real, width: real, height: real)

  datatype Artifact = PngImage(dataUrl: string) | PdfDocument(dataUrl: string, placement: Placement)

  /** A file the browser was asked to download. */
  datatype Download = Download(fileName: string, artifact: Artifact)

  const FixedStyle: seq<(string, string)> := [
    ("maxWidth", "none"), ("maxHeight", "none"), ("display", "block"),
    ("margin", "0"), ("position", "relative"), ("boxSizing", "border-box")]

  /**
   * `opts?.width ? `${opts.width}px` : undefined`: a CSS length only for a
   * present, non-zero size (0 is falsy in JavaScript).
   */
  function StyleLength(size: Option<int>): (r: Option<string>)
    ensures r.Some? <==> size.Some? && size.value != 0
    ensures r.Some? ==> |r.value| > 2 && r.value[|r.value| - 2..] == "px"
    ensures r.Some? ==>
      JsText.IsDecimal(r.value[..|r.value| - 2]) && JsText.ParseDecimal(r.value[..|r.value| - 2]) == size.value
  {
    if size.Some? && size.value != 0 then
      var s := JsText.Decimal(size.value) + "px";
      JsText.DecimalRoundTrip(size.value);
      assert s[..|s| - 2] == JsText.Decimal(size.value);
      Some(s)
    else
      None
  }

  /** The `toPng` options of `exportToPNG`. */
  function PngCaptureOptions(opts: SizeOptions): CaptureOptions {
    CaptureOptions(0.95, 3, Some("#fdfbf7"), true, opts.width, opts.height,
      Some(StyleOverrides(StyleLength(opts.width), StyleLength(opts.height), FixedStyle)))
  }

  /** The `toPng` options of `exportToPDF`. */
  const PdfCaptureOptions := CaptureOptions(0.95, 2, None, true, None, None, None)

  /**
   * Fit the image to the page width less two margins and centre it
   * vertically, keeping its aspect ratio. Nothing is clamped: an image taller
   * than the page starts above it.
   */
  function PdfPlacement(page: PageSize, img: ImageProps): (p: Placement)
    ensures p.x == Margin && p.width == page.width - 2.0 * Margin
    ensures page.width - (p.x + p.width) == p.x
    ensures p.height * img.width == img.height * p.width
    ensures page.height - (p.y + p.height) == p.y
    ensures p.y < 0.0 <==> p.height > page.height
  {
    var maxContentWidth := page.width - Margin * 2.0;
    var ratio := maxContentWidth / img.width;
    var finalHeight := img.height * ratio;
    var yPos := (page.height - finalHeight) / 2.0;
    Placement(Margin, yPos, maxContentWidth, finalHeight)
  }

  /**
   * The page as the exporters see and affect it: the classes of the
   * document body, and logs of capture calls, downloads started and alerts
   * shown.
   */
  class Browser {
    var bodyClasses: set<string>
    var captures: seq<CaptureCall>
    var downloads: seq<Download>
    var alerts: seq<string>

    constructor (bodyClasses: set<string>)
      ensures this.bodyClasses == bodyClasses
      ensures captures == [] && downloads == [] && alerts == []
    {
      this.bodyClasses := bodyClasses;
      captures, downloads, alerts := [], [], [];
    }

    /** `toPng`, called while `ExportingClass` is set. */
    method CaptureCard(options: CaptureOptions, toPng: CaptureOptions -> Capture) returns (c: Capture)
      modifies this`captures
      ensures c == toPng(options)
      ensures captures == old(captures) + [CaptureCall(options, ExportingClass in bodyClasses)]
    {
      captures := captures + [CaptureCall(options, ExportingClass in bodyClasses)];
      c := toPng(options);
    }

    /**
     * `exportToPNG`. On the web a successful capture is downloaded as
     * `fileName.png`; inside the native shell nothing is saved yet. A failed
     * capture raises the image alert instead. Either way the exporting
     * class is gone afterwards.
     */
    method ExportToPng(fileName: string, opts: SizeOptions, isCapacitor: bool, toPng: CaptureOptions -> Capture)
      modifies this
      ensures bodyClasses == old(bodyClasses) - {ExportingClass}
      ensures captures == old(captures) + [CaptureCall(PngCaptureOptions(opts), true)]
      ensures match toPng(PngCaptureOptions(opts))
        case CaptureFailed =>
          downloads == old(downloads) && alerts == old(alerts) + [PngFailureAlert]
        case Captured(url) =>
          && alerts == old(alerts)
          && downloads == old(downloads) + (if isCapacitor then [] else [Download(fileName + ".png", PngImage(url))])
    {
      bodyClasses := bodyClasses + {ExportingClass};
      var c := CaptureCard(PngCaptureOptions(opts), toPng);
      match c {
        case CaptureFailed =>
          alerts := alerts + [PngFailureAlert];
        case Captured(url) =>
          if !isCapacitor {
            downloads := downloads + [Download(fileName + ".png", PngImage(url))];
          }
      }
      bodyClasses := bodyClasses - {ExportingClass};
    }

    /**
     * `exportToPDF`. A successful capture whose image the PDF library can
     * read is placed on one page by `PdfPlacement` and the document is
     * saved as `fileName.pdf`; a failed capture or an unreadable image
     * raises the PDF alert. Either way the exporting class is gone
     * afterwards.
     */
    method ExportToPdf(fileName: string, toPng: CaptureOptions -> Capture,
                       imageProps: string -> Option<ImageProps>, page: PageSize)
      modifies this
      ensures bodyClasses == old(bodyClasses) - {ExportingClass}
      ensures captures == old(captures) + [CaptureCall(PdfCaptureOptions, true)]
      ensures match toPng(PdfCaptureOptions)
        case CaptureFailed =>
          downloads == old(downloads) && alerts == old(alerts) + [PdfFailureAlert]
        case Captured(url) =>
          match imageProps(url)
          case None =>
            downloads == old(downloads) && alerts == old(alerts) + [PdfFailureAlert]
          case Some(img) =>
            && alerts == old(alerts)
            && downloads == old(downloads) + [Download(fileName + ".pdf", PdfDocument(url, PdfPlacement(page, img)))]
    {
      bodyClasses := bodyClasses + {ExportingClass};
      var c := CaptureCard(PdfCaptureOptions, toPng);
      match c {
        case CaptureFailed =>
          alerts := alerts + [PdfFailureAlert];
        case Captured(url) =>
          match imageProps(url) {
            case None =>
              alerts := alerts + [PdfFailureAlert];
            case Some(img) =>
              var placement := PdfPlacement(page, img);
              downloads := downloads + [Download(fileName + ".pdf", PdfDocument(url, placement))];
          }
      }
      bodyClasses := bodyClasses - {ExportingClass};
    }
  }

  /** A size override is set exactly for a present, non-zero size, as `<n>px`. */
  lemma StyleOverridesOnlyForNonZeroSizes(opts: SizeOptions)
    ensures var style := PngCaptureOptions(opts).style.value;
      && (style.width.Some? <==> opts.width.Some? && opts.width.value != 0)
      && (style.height.Some? <==> opts.height.Some? && opts.height.value != 0)
      && (style.width.Some? ==> style.width.value == JsText.Decimal(opts.width.value) + "px")
      && (style.height.Some? ==> style.height.value == JsText.Decimal(opts.height.value) + "px")
  {
  }

}
