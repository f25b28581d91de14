/** The upload panel (components/image-upload-section.tsx): the file check,
    the error message it shows, and the drag-highlight flag. */
module ImageUpload {
  import opened Types
  import opened Text

  /** The two fields of a `File` the panel reads. */
  datatype FileInfo = FileInfo(mimeType: string, size: nat)

  const MaxUploadBytes: nat := 10 * 1024 * 1024
  const NotImageMessage := "Please upload an image file (JPG or PNG)"
  const TooLargeMessage := "File size must be less than 10MB"

  /** The decision of `handleFile`: None when the file is accepted. */
  function Rejection(file: FileInfo): (error: Option<string>)
    ensures !StartsWith(file.mimeType, "image/") ==> error == Some(NotImageMessage)
    ensures StartsWith(file.mimeType, "image/") && file.size > MaxUploadBytes ==> error == Some(TooLargeMessage)
    ensures error.None? <==> StartsWith(file.mimeType, "image/") && file.size <= MaxUploadBytes
  {
    if !StartsWith(file.mimeType, "image/") then Some(NotImageMessage)
    else if file.size > MaxUploadBytes then Some(TooLargeMessage)
    else None
  }

  /** The flag after a drag event of the given type. */
  function DragFlag(active: bool, eventType: string): (r: bool)
    ensures eventType == "dragenter" || eventType == "dragover" ==> r
    ensures eventType == "dragleave" ==> !r
    ensures eventType !in {"dragenter", "dragover", "dragleave"} ==> r == active
  {
    if eventType == "dragenter" || eventType == "dragover" then true
    else if eventType == "dragleave" then false
    else active
  }

  /** The type is checked first: a non-image is refused for its type
      whatever its size, and a file of exactly 10 MiB passes. */
  lemma RejectionExamples(size: nat)
    ensures Rejection(FileInfo("application/pdf", size)) == Some(NotImageMessage)
    ensures Rejection(FileInfo("image/png", MaxUploadBytes)).None?
    ensures Rejection(FileInfo("image/png", MaxUploadBytes + 1)) == Some(TooLargeMessage)
  {
    assert !StartsWith("application/pdf", "image/") by {
      assert "application/pdf"[0] != "image/"[0];
    }
    assert "image/png"[..6] == "image/";
  }

  class UploadSection {
    var dragActive: bool
    var error: Option<string>
    /** The files handed on to `onUpload`, in order. */
    var uploads: seq<FileInfo>

    constructor ()
      ensures !dragActive && error.None? && uploads == []
    {
      dragActive := false;
      error := None;
      uploads := [];
    }

    /** `handleFile`: the error is cleared, then set by the first failing
        check; an accepted file is passed on. */
    method HandleFile(file: FileInfo)
      modifies this
      ensures error == Rejection(file)
      ensures error.None? ==> uploads == old(uploads) + [file]
      ensures error.Some? ==> uploads == old(uploads)
      ensures dragActive == old(dragActive)
    {
      error := None;
      if !StartsWith(file.mimeType, "image/") {
        error := Some(NotImageMessage);
        return;
      }
      if file.size > MaxUploadBytes {
        error := Some(TooLargeMessage);
        return;
      }
      uploads := uploads + [file];
    }

    method HandleDrag(eventType: string)
      modifies this
      ensures dragActive == DragFlag(old(dragActive), eventType)
      ensures error == old(error) && uploads == old(uploads)
    {
      if eventType == "dragenter" || eventType == "dragover" {
        dragActive := true;
      } else if eventType == "dragleave" {
        dragActive := false;
      }
    }

    /** `handleDrop`: the highlight goes off; the first dropped file, if any, is handled. */
    method HandleDrop(files: seq<FileInfo>)
      modifies this
      ensures !dragActive
      ensures |files| == 0 ==> error == old(error) && uploads == old(uploads)
      ensures |files| > 0 ==> (error == Rejection(files[0]) &&
        uploads == old(uploads) + (if error.None? then [files[0]] else []))
    {
      dragActive := false;
      if |files| > 0 {
        HandleFile(files[0]);
      }
    }

    /** `handleChange`: the first chosen file, if any, is handled. */
    method HandleChange(files: seq<FileInfo>)
      modifies this
      ensures dragActive == old(dragActive)
      ensures |files| == 0 ==> error == old(error) && uploads == old(uploads)
      ensures |files| > 0 ==> (error == Rejection(files[0]) &&
        uploads == old(uploads) + (if error.None? then [files[0]] else []))
    {
      if |files| > 0 {
        HandleFile(files[0]);
      }
    }
  }
}
