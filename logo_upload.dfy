/**
 * The logo picker (client/src/components/logo-upload.tsx): a chosen file is checked (type, then
 * size, then pixel dimensions), read as a data URL and handed to `onChange`, through a
 * down-scaling canvas when the file is over 100 KB. The component's state is `uploading` and
 * `error`; the values passed to `onChange` are recorded in order.
 *
 * The browser does the reading and the image decoding, asynchronously; here their outcomes are
 * parameters of the handler: how the probe image loaded during validation, how the file reader
 * ended, and how the resizing step ended.
 */
module LogoUpload {
  import opened Wrappers
  import opened Text

  /** The `maxSize` prop's default, in kilobytes. */
  const DefaultMaxSize: int := 500
  /** Larger files (in bytes) are redrawn on a canvas before being passed on. */
  const PassThroughLimit: int := 100 * 1024
  /** Largest accepted width and height, in pixels. */
  const MaxDimension: int := 1024

  const TypeMessage: string := "يرجى اختيار ملف صورة صالح (PNG, JPG, JPEG, SVG)"
  const DimensionMessage: string := "أبعاد الصورة كبيرة جداً. الحد الأقصى 1024×1024 بكسل"
  const ImageMessage: string := "فشل في قراءة الصورة"
  const ReadMessage: string := "فشل في قراءة الملف"

  /** The size message, with the limit in kilobytes written into it. */
  function SizeMessage(maxSize: int): string {
    "حجم الملف كبير جداً. الحد الأقصى " + IntToString(maxSize) + " كيلوبايت"
  }

  /** What the handler reads from the `File`: its MIME type and its size in bytes. */
  datatype FileInfo = FileInfo(mimeType: string, size: nat)

  /** How the probe image of `validateFile` ended: `onload` with its size, or `onerror`. */
  datatype ImageProbe = Loaded(width: nat, height: nat) | LoadFailed

  /** How the `FileReader` ended: `onload` with the data URL, or `onerror`. */
  datatype ReadOutcome = ReadDone(dataUrl: string) | ReadFailed

  /**
   * How the resizing step ended: the canvas's JPEG data URL, no 2D context (nothing is passed
   * on), or the image failing to load (no handler is set for that, so nothing else happens).
   */
  datatype ResizeOutcome = Resized(jpeg: string) | NoContext | ResizeLoadFailed

  /**
   * `validateFile`: the message of the first check that fails, or `None` when the file is
   * accepted (and the error is cleared).
   */
  function Validate(f: FileInfo, maxSize: int, probe: ImageProbe): (r: Option<string>)
    ensures r.None? <==>
      StartsWith(f.mimeType, "image/") && f.size <= maxSize * 1024 &&
      probe.Loaded? && probe.width <= MaxDimension && probe.height <= MaxDimension
  {
    if !StartsWith(f.mimeType, "image/") then Some(TypeMessage)
    else if f.size > maxSize * 1024 then Some(SizeMessage(maxSize))
    else match probe
      case Loaded(w, h) => if w > MaxDimension || h > MaxDimension then Some(DimensionMessage) else None
      case LoadFailed => Some(ImageMessage)
  }

  /**
   * The checks run in the order type, size, dimensions: a wrong type is reported whatever the
   * size and the image, and an oversized file whatever the image.
   */
  lemma ValidateOrder(f: FileInfo, maxSize: int, probe: ImageProbe, other: ImageProbe)
    ensures !StartsWith(f.mimeType, "image/") ==> Validate(f, maxSize, probe) == Some(TypeMessage)
    ensures StartsWith(f.mimeType, "image/") && f.size > maxSize * 1024 ==>
      Validate(f, maxSize, probe) == Some(SizeMessage(maxSize))
    ensures !StartsWith(f.mimeType, "image/") || f.size > maxSize * 1024 ==>
      Validate(f, maxSize, probe) == Validate(f, maxSize, other)
    ensures (StartsWith(f.mimeType, "image/") && f.size <= maxSize * 1024 && probe.Loaded? &&
      (probe.width > MaxDimension || probe.height > MaxDimension)) ==>
      Validate(f, maxSize, probe) == Some(DimensionMessage)
  {
  }

  /** With the default limit, an image file of more than 500 KB is refused. */
  lemma DefaultLimit(f: FileInfo, probe: ImageProbe)
    requires StartsWith(f.mimeType, "image/") && f.size > 512000
    ensures Validate(f, DefaultMaxSize, probe) == Some("حجم الملف كبير جداً. الحد الأقصى 500 كيلوبايت")
  {
    assert NatToString(5) == "5";
    assert NatToString(50) == "50";
    assert NatToString(500) == "500";
    assert IntToString(500) == "500";
    assert Validate(f, DefaultMaxSize, probe) == Some(SizeMessage(500));
    var prefix, suffix := "حجم الملف كبير جداً. الحد الأقصى ", " كيلوبايت";
    assert SizeMessage(500) == prefix + "500" + suffix;
    assert prefix + "500" + suffix == "حجم الملف كبير جداً. الحد الأقصى 500 كيلوبايت";
  }

  /** The state the component is left in once the handler and its callbacks have finished. */
  datatype UploadEnd = UploadEnd(uploading: bool, error: Option<string>, passed: Option<string>)

  /** `handleFileUpload` for a chosen file, from the outcomes of the browser's steps. */
  function UploadResult(f: FileInfo, maxSize: int, probe: ImageProbe, read: ReadOutcome,
                        resize: ResizeOutcome): UploadEnd
  {
    match Validate(f, maxSize, probe)
    case Some(message) => UploadEnd(false, Some(message), None)
    case None =>
      match read
      case ReadFailed => UploadEnd(false, Some(ReadMessage), None)
      case ReadDone(dataUrl) =>
        if f.size > PassThroughLimit then
          match resize
          case Resized(jpeg) => UploadEnd(false, None, Some(jpeg))
          case NoContext => UploadEnd(false, None, None)
          case ResizeLoadFailed => UploadEnd(true, None, None)
        else UploadEnd(false, None, Some(dataUrl))
  }

  /**
   * A refused file passes nothing on and shows the first failing check's message; an accepted
   * file of at most 100 KB is passed on exactly as read; a larger one only as the canvas's
   * output. The spinner stays on only when the resized image fails to load.
   */
  lemma UploadResultCases(f: FileInfo, maxSize: int, probe: ImageProbe, read: ReadOutcome,
                          resize: ResizeOutcome)
    ensures var e := UploadResult(f, maxSize, probe, read, resize);
      (Validate(f, maxSize, probe).Some? ==>
        e == UploadEnd(false, Validate(f, maxSize, probe), None)) &&
      (Validate(f, maxSize, probe).None? && read.ReadDone? && f.size <= PassThroughLimit ==>
        e == UploadEnd(false, None, Some(read.dataUrl))) &&
      (e.passed.Some? ==>
        Validate(f, maxSize, probe).None? && read.ReadDone? &&
        (f.size <= PassThroughLimit ==> e.passed.value == read.dataUrl) &&
        (f.size > PassThroughLimit ==> resize == Resized(e.passed.value))) &&
      (e.uploading <==>
        Validate(f, maxSize, probe).None? && read.ReadDone? && f.size > PassThroughLimit &&
        resize == ResizeLoadFailed) &&
      (e.error.Some? ==> e.passed.None?)
  {
  }

  class Picker {
    /** The `maxSize` prop, in kilobytes. */
    const maxSize: int
    var uploading: bool
    var error: Option<string>
    /** The values passed to `onChange`, oldest first. */
    var passed: seq<string>

    /** A mounted picker: the limit defaults to 500 KB; nothing uploading, no error. */
    constructor(maxSize: Option<int>)
      ensures this.maxSize == maxSize.GetOr(DefaultMaxSize)
      ensures !uploading && error == None && passed == []
    {
      this.maxSize := maxSize.GetOr(DefaultMaxSize);
      uploading, error, passed := false, None, [];
    }

    /**
     * `handleFileUpload`: no file, nothing happens; otherwise the spinner comes on and the error
     * is cleared, and the steps end as `UploadResult` says.
     */
    method HandleFileUpload(file: Option<FileInfo>, probe: ImageProbe, read: ReadOutcome,
                            resize: ResizeOutcome)
      modifies this
      ensures file.None? ==> uploading == old(uploading) && error == old(error) && passed == old(passed)
      ensures file.Some? ==>
        var e := UploadResult(file.value, maxSize, probe, read, resize);
        uploading == e.uploading && error == e.error &&
        passed == old(passed) + (if e.passed.Some? then [e.passed.value] else [])
    {
      if file.None? {
        return;
      }
      var f := file.value;
      uploading := true;
      error := None;
      var invalid := Validate(f, maxSize, probe);
      error := invalid;
      if invalid.Some? {
        uploading := false;
        return;
      }
      match read {
        case ReadFailed =>
          error := Some(ReadMessage);
          uploading := false;
        case ReadDone(dataUrl) =>
          if f.size > PassThroughLimit {
            match resize {
              case Resized(jpeg) =>
                passed := passed + [jpeg];
                uploading := false;
              case NoContext =>
                uploading := false;
              case ResizeLoadFailed =>
            }
          } else {
            passed := passed + [dataUrl];
            uploading := false;
          }
      }
    }

    /** `handleRemove`: the empty string is passed on and the error is cleared. */
    method HandleRemove()
      modifies this
      ensures passed == old(passed) + [""] && error == None && uploading == old(uploading)
    {
      passed := passed + [""];
      error := None;
    }
  }
}
