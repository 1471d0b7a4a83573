/** The employee enrolment form of components/FacialUpload.tsx: first and
    last name, a still taken from the camera or dropped or picked as a file,
    and an upload of that still to the employee image store under the key
    `<first>_<last>.jpeg`.

    Awaited calls: the camera (`getUserMedia`), the conversion of the data URL
    to a blob and the file reader are taken to complete within the handler
    that starts them, their outcome given as a parameter; the upload request
    is the one suspension point kept, so `UploadImage` sends it and
    `SettleUpload` runs the rest of `sendImage` when it completes. */
module FacialUpload {
  import opened Text
  import opened Browser

  const Prompt: string := "Please enter your details and capture an image to authenticate."
  const MissingDetails: string := "❌ Please enter first name and last name before uploading."
  const UploadingMessage: string := "Uploading..."
  const UploadFailed: string := "❌ Upload failed. Please try again."
  const NotAnImage: string := "❌ Please drop an image file."

  function UploadedMessage(fileName: string): string {
    "✅ Image uploaded successfully as " + fileName + "!"
  }

  const StorageBase: string := "https://xq9m5io0s5.execute-api.us-east-1.amazonaws.com/dev/facial-employees-image-storage/"

  const JpegSuffix: string := ".jpeg"

  /** The object key an employee's image is stored under. */
  function FileName(firstName: string, lastName: string): (r: string)
    ensures StartsWith(r, firstName)
    ensures |r| == |firstName| + |lastName| + 6 && r[|r| - 5..] == JpegSuffix
  {
    firstName + "_" + lastName + JpegSuffix
  }

  /** Where the PUT of an image goes: the store's base address, then the
      object key. */
  function UploadUrl(fileName: string): (r: string)
    ensures StartsWith(r, StorageBase) && r[|StorageBase|..] == fileName
  {
    StorageBase + fileName
  }

  /** A dropped file counts as an image when its MIME type is in the
      "image" top-level type, whatever the subtype. */
  predicate IsImageType(mimeType: string)
    ensures IsImageType(mimeType) <==> exists sub :: mimeType == "image/" + sub
  {
    var image := StartsWith(mimeType, "image/");
    assert image ==> mimeType == "image/" + mimeType[6..];
    image
  }

  /** Two employees whose first names have no '_' get the same key only if
      they have the same names. */
  lemma {:induction false} FileNameInjective(f1: string, l1: string, f2: string, l2: string)
    requires '_' !in f1 && '_' !in f2
    requires FileName(f1, l1) == FileName(f2, l2)
    ensures f1 == f2 && l1 == l2
  {
    assert FileName(f1, l1) == f1 + "_" + (l1 + JpegSuffix);
    assert FileName(f2, l2) == f2 + "_" + (l2 + JpegSuffix);
    SplitFirst(f1, l1 + JpegSuffix, '_');
    SplitFirst(f2, l2 + JpegSuffix, '_');
    assert l1 + JpegSuffix == l2 + JpegSuffix;
    assert l1 == (l1 + JpegSuffix)[..|l1|];
    assert l2 == (l2 + JpegSuffix)[..|l2|];
  }

  /** Without that restriction two different employees can share a key, so
      the second upload replaces the first one's image. */
  lemma {:induction false} FileNameCollision()
    ensures FileName("Mary_Ann", "Lee") == FileName("Mary", "Ann_Lee")
  {
  }

  /** Distinct employees (first names without '_') upload to distinct URLs. */
  lemma {:induction false} UploadUrlInjective(f1: string, l1: string, f2: string, l2: string)
    requires '_' !in f1 && '_' !in f2 && (f1, l1) != (f2, l2)
    ensures UploadUrl(FileName(f1, l1)) != UploadUrl(FileName(f2, l2))
  {
    if UploadUrl(FileName(f1, l1)) == UploadUrl(FileName(f2, l2)) {
      assert FileName(f1, l1) == UploadUrl(FileName(f1, l1))[|StorageBase|..];
      assert FileName(f2, l2) == UploadUrl(FileName(f2, l2))[|StorageBase|..];
      FileNameInjective(f1, l1, f2, l2);
    }
  }

  /** Which buttons the form shows. */
  datatype Phase =
    | Capturing                       // "Capture"
    | Reviewing(uploadEnabled: bool)  // "Upload" (or "Uploading...") and "Reset"
    | Uploaded                        // "Home Page" and "Add Another Image"

  /** A file handed over by drag and drop or by the file picker: its type
      and, when the reader loads it, its data URL. */
  datatype PickedFile = PickedFile(mimeType: string, dataUrl: Option<string>)

  /** The upload in flight: its key and the stream the handler that started
      it saw (the completion runs `stopCamera` from that handler's render). */
  datatype PendingUpload = PendingUpload(fileName: string, stream: MediaStream?)

  /** The plain-valued part of the form's state. */
  datatype Form = Form(
    firstName: string, lastName: string, image: Option<File>, preview: Option<string>,
    isUploading: bool, message: string, isCaptured: bool, uploadSuccess: bool, isDragging: bool)

  class Uploader {
    var firstName: string
    var lastName: string
    var image: Option<File>
    var preview: Option<string>
    var isUploading: bool
    var message: string
    var isCaptured: bool
    var uploadSuccess: bool
    var stream: MediaStream?
    var isDragging: bool
    var pending: Option<PendingUpload>
    const net: Network
    const router: Router

    constructor (net: Network, router: Router)
      ensures this.net == net && this.router == router
      ensures Snapshot() == Form("", "", None, None, false, Prompt, false, false, false)
      ensures stream == null && pending.None? && Valid()
    {
      this.net := net;
      this.router := router;
      firstName, lastName := "", "";
      image, preview := None, None;
      isUploading := false;
      message := Prompt;
      isCaptured, uploadSuccess, isDragging := false, false, false;
      stream := null;
      pending := None;
    }

    function Snapshot(): Form
      reads this
    {
      Form(firstName, lastName, image, preview, isUploading, message, isCaptured, uploadSuccess, isDragging)
    }

    /** An upload is in flight exactly while the form says so, and a still
        is shown exactly when one was captured. */
    predicate Valid()
      reads this
    {
      (isUploading <==> pending.Some?) && (isCaptured <==> preview.Some?)
    }

    function Phase(): (p: Phase)
      reads this
      ensures p.Capturing? <==> !isCaptured
      ensures p.Reviewing? ==> p.uploadEnabled == !isUploading
      ensures p.Uploaded? <==> isCaptured && uploadSuccess
    {
      if !isCaptured then Capturing
      else if !uploadSuccess then Reviewing(!isUploading)
      else Uploaded
    }

    /** The tracks the form's current stream holds. */
    function Tracks(): set<Track>
      reads this
    {
      if stream != null then stream.Footprint() else {}
    }

    function PendingTracks(): set<Track>
      reads this
    {
      if pending.Some? && pending.value.stream != null then pending.value.stream.Footprint() else {}
    }

    /** `startCamera()`: a granted camera replaces the stream (an earlier one
        is not stopped); a refusal is only logged. */
    method StartCamera(cam: Option<MediaStream>)
      modifies this`stream
      ensures stream == if cam.Some? then cam.value else old(stream)
    {
      if cam.Some? {
        stream := cam.value;
      }
    }

    /** `stopCamera()`: the stream's tracks stop and the form forgets it. */
    method StopCamera()
      modifies this`stream, Tracks()
      ensures stream == null
      ensures old(stream) != null ==> forall t :: t in old(stream).tracks ==> !t.live
    {
      if stream != null {
        StopTracks(stream);
        stream := null;
      }
    }

    /** Typing a first name; the effect on the names then starts the camera
        when both names are filled in and there is no stream yet. */
    method SetFirstName(v: string, cam: Option<MediaStream>)
      requires Valid()
      modifies this`firstName, this`stream
      ensures Valid() && Snapshot() == old(Snapshot()).(firstName := v)
      ensures stream == if v != old(firstName) && v != [] && lastName != [] && old(stream) == null && cam.Some?
                        then cam.value else old(stream)
    {
      if v != firstName {
        firstName := v;
        if firstName != [] && lastName != [] && stream == null {
          StartCamera(cam);
        }
      }
    }

    method SetLastName(v: string, cam: Option<MediaStream>)
      requires Valid()
      modifies this`lastName, this`stream
      ensures Valid() && Snapshot() == old(Snapshot()).(lastName := v)
      ensures stream == if v != old(lastName) && firstName != [] && v != [] && old(stream) == null && cam.Some?
                        then cam.value else old(stream)
    {
      if v != lastName {
        lastName := v;
        if firstName != [] && lastName != [] && stream == null {
          StartCamera(cam);
        }
      }
    }

    /** "Capture": when the video and a drawing context are there (`frame`
        is the canvas as a JPEG data URL), the still is shown and the camera
        stops. */
    method CaptureImage(frame: Option<string>)
      requires Valid()
      modifies this`preview, this`isCaptured, this`stream, Tracks()
      ensures Valid()
      ensures frame.None? ==> Snapshot() == old(Snapshot()) && stream == old(stream)
      ensures frame.Some? ==> Snapshot() == old(Snapshot()).(preview := frame, isCaptured := true) && stream == null
      ensures frame.Some? && old(stream) != null ==> forall t :: t in old(stream).tracks ==> !t.live
    {
      if frame.Some? {
        preview := frame;
        isCaptured := true;
        StopCamera();
      }
    }

    /** "Reset": the still is dropped, the prompt comes back and the camera
        restarts if both names are filled in. */
    method ResetCapture(cam: Option<MediaStream>)
      requires Valid()
      modifies this`preview, this`image, this`isCaptured, this`message, this`stream
      ensures Valid()
      ensures Snapshot() == old(Snapshot()).(preview := None, image := None, isCaptured := false, message := Prompt)
      ensures stream == if firstName != [] && lastName != [] && cam.Some? then cam.value else old(stream)
    {
      preview := None;
      image := None;
      isCaptured := false;
      message := Prompt;
      if firstName != [] && lastName != [] {
        StartCamera(cam);
      }
    }

    /** "Upload" (disabled while an upload is in flight). Without a still or
        a name the user is told to fill them in. Otherwise the camera stops,
        the still becomes a JPEG file named after the employee (`blob` is the
        result of reading the data URL; when that fails the handler ends
        there), and the PUT to the store is sent. */
    method UploadImage(blob: Option<Blob>)
      requires Valid() && !isUploading
      modifies this, Tracks(), net
      ensures Valid()
      ensures old(preview).None? || old(preview) == Some([]) || old(firstName) == [] || old(lastName) == [] ==>
        && Snapshot() == old(Snapshot()).(message := MissingDetails)
        && stream == old(stream) && pending == old(pending) && net.sent == old(net.sent)
      ensures old(preview).Some? && old(preview) != Some([]) && old(firstName) != [] && old(lastName) != [] ==>
        && stream == null
        && (old(stream) != null ==> forall t :: t in old(stream).tracks ==> !t.live)
        && (blob.None? ==> Snapshot() == old(Snapshot()) && pending.None? && net.sent == old(net.sent))
        && (blob.Some? ==>
             var name := FileName(old(firstName), old(lastName));
             var file := File(name, "image/jpeg", blob.value);
             && Snapshot() == old(Snapshot()).(image := Some(file), message := UploadingMessage, isUploading := true)
             && pending == Some(PendingUpload(name, old(stream)))
             && net.sent == old(net.sent) + [Request(PUT, UploadUrl(name), Some(file))])
    {
      if preview.None? || preview.value == [] || firstName == [] || lastName == [] {
        message := MissingDetails;
        return;
      }
      var seen := stream;
      StopCamera();
      if blob.None? {
        return;
      }
      var fileName := FileName(firstName, lastName);
      var file := File(fileName, "image/jpeg", blob.value);
      image := Some(file);
      message := UploadingMessage;
      // sendImage
      isUploading := true;
      net.Send(Request(PUT, UploadUrl(fileName), Some(file)));
      pending := Some(PendingUpload(fileName, seen));
    }

    /** The PUT completes. Any response counts as success (its status is not
        looked at): the success message, the final phase and `stopCamera`
        as the starting handler saw it. A network error gives the failure
        message. Either way the upload is over. */
    method SettleUpload(outcome: FetchOutcome)
      requires Valid() && pending.Some?
      modifies this`message, this`uploadSuccess, this`isUploading, this`pending, this`stream, PendingTracks()
      ensures Valid() && pending.None? && !isUploading
      ensures var p := old(pending.value);
        if outcome.Responded? then
          && Snapshot() == old(Snapshot()).(message := UploadedMessage(p.fileName), uploadSuccess := true, isUploading := false)
          && stream == (if p.stream != null then null else old(stream))
          && (p.stream != null ==> forall t :: t in p.stream.tracks ==> !t.live)
        else
          && Snapshot() == old(Snapshot()).(message := UploadFailed, isUploading := false)
          && stream == old(stream)
    {
      var p := pending.value;
      if outcome.Responded? {
        message := UploadedMessage(p.fileName);
        uploadSuccess := true;
        if p.stream != null {
          StopTracks(p.stream);
          stream := null;
        }
      } else {
        message := UploadFailed;
      }
      isUploading := false;
      pending := None;
    }

    method DragEnter()
      requires Valid()
      modifies this`isDragging
      ensures Valid() && Snapshot() == old(Snapshot()).(isDragging := true)
    {
      isDragging := true;
    }

    method DragLeave()
      requires Valid()
      modifies this`isDragging
      ensures Valid() && Snapshot() == old(Snapshot()).(isDragging := false)
    {
      isDragging := false;
    }

    /** A loaded image file becomes the still, as a capture would. */
    method ShowPicked(dataUrl: string)
      requires Valid()
      modifies this`preview, this`isCaptured, this`stream, Tracks()
      ensures Valid() && stream == null
      ensures Snapshot() == old(Snapshot()).(preview := Some(dataUrl), isCaptured := true)
      ensures old(stream) != null ==> forall t :: t in old(stream).tracks ==> !t.live
    {
      preview := Some(dataUrl);
      isCaptured := true;
      StopCamera();
    }

    /** A drop: the highlight goes; the first file, if it is an image that
        loads, becomes the still; a file of another type is refused with a
        message. */
    method HandleDrop(files: seq<PickedFile>)
      requires Valid()
      modifies this`isDragging, this`preview, this`isCaptured, this`message, this`stream, Tracks()
      ensures Valid()
      ensures files == [] || (IsImageType(files[0].mimeType) && files[0].dataUrl.None?) ==>
        Snapshot() == old(Snapshot()).(isDragging := false) && stream == old(stream)
      ensures files != [] && !IsImageType(files[0].mimeType) ==>
        Snapshot() == old(Snapshot()).(isDragging := false, message := NotAnImage) && stream == old(stream)
      ensures files != [] && IsImageType(files[0].mimeType) && files[0].dataUrl.Some? ==>
        && Snapshot() == old(Snapshot()).(isDragging := false, preview := files[0].dataUrl, isCaptured := true)
        && stream == null
        && (old(stream) != null ==> forall t :: t in old(stream).tracks ==> !t.live)
    {
      isDragging := false;
      if |files| > 0 {
        var file := files[0];
        if IsImageType(file.mimeType) {
          if file.dataUrl.Some? {
            ShowPicked(file.dataUrl.value);
          }
        } else {
          message := NotAnImage;
        }
      }
    }

    /** The file picker: as a drop, but a non-image file is ignored silently. */
    method HandleFileInput(files: seq<PickedFile>)
      requires Valid()
      modifies this`preview, this`isCaptured, this`stream, Tracks()
      ensures Valid()
      ensures files != [] && IsImageType(files[0].mimeType) && files[0].dataUrl.Some? ==>
        && Snapshot() == old(Snapshot()).(preview := files[0].dataUrl, isCaptured := true)
        && stream == null
        && (old(stream) != null ==> forall t :: t in old(stream).tracks ==> !t.live)
      ensures !(files != [] && IsImageType(files[0].mimeType) && files[0].dataUrl.Some?) ==>
        Snapshot() == old(Snapshot()) && stream == old(stream)
    {
      if |files| > 0 {
        var file := files[0];
        if IsImageType(file.mimeType) && file.dataUrl.Some? {
          ShowPicked(file.dataUrl.value);
        }
      }
    }

    /** "Home Page". */
    method GoHome()
      modifies router
      ensures router.pushed == old(router.pushed) + ["/"]
    {
      router.Push("/");
    }
  }
}
