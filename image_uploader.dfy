/**
 * The upload component: a MIME allow-list, the choice of the first file of a
 * drop or a file-input change, and the `isDragging` highlight. The parent's
 * `onImageUpload` callback is represented by the sequence of files it has been
 * handed.
 */
module ImageUploader {
  import opened Types

  const JpegType := "image/jpeg"
  const PngType := "image/png"
  const AcceptedTypes: seq<string> := [JpegType, PngType]
  const InvalidFileTypeMessage := "Invalid file type. Please upload a JPG or PNG image."

  /** The allow-list test on `file.type`. */
  function IsAcceptedType(fileType: string): (accepted: bool)
    ensures accepted <==> fileType == JpegType || fileType == PngType
  {
    fileType in AcceptedTypes
  }

  /** `files && files.length > 0 ? files[0] : nothing`. */
  function FirstFile(files: Option<seq<File>>): (first: Option<File>)
    ensures first.Some? <==> files.Some? && |files.value| > 0
    ensures first.Some? ==> first.value == files.value[0]
  {
    if files.Some? && |files.value| > 0 then Some(files.value[0]) else None
  }

  /** The message a file leaves behind: none for an accepted file or no file, the fixed one otherwise. */
  function ErrorAfter(file: Option<File>): (error: Option<string>)
    ensures error.Some? <==> file.Some? && !IsAcceptedType(file.value.fileType)
    ensures error.Some? ==> error.value == InvalidFileTypeMessage
  {
    if file.Some? && !IsAcceptedType(file.value.fileType) then Some(InvalidFileTypeMessage) else None
  }

  /** The files a call hands to `onImageUpload`: the file itself when it is accepted, nothing otherwise. */
  function Accepted(file: Option<File>): (handed: seq<File>)
    ensures |handed| <= 1
    ensures handed != [] <==> file.Some? && IsAcceptedType(file.value.fileType)
    ensures handed != [] ==> handed[0] == file.value
  {
    if file.Some? && IsAcceptedType(file.value.fileType) then [file.value] else []
  }

  /** An upload either reaches the callback or leaves an error message, never both and, for a real file, never neither. */
  lemma UploadOrError(file: File)
    ensures (Accepted(Some(file)) != []) != ErrorAfter(Some(file)).Some?
  {
  }

  class Uploader {
    var isDragging: bool
    var error: Option<string>
    /** Every file handed to `onImageUpload`, oldest first. */
    var uploads: seq<File>

    constructor ()
      ensures !isDragging && error == None && uploads == []
    {
      isDragging := false;
      error := None;
      uploads := [];
    }

    /** `handleFile`: clear the error, then either hand the file on or reject its type. */
    method HandleFile(file: Option<File>)
      modifies this`error, this`uploads
      ensures error == ErrorAfter(file)
      ensures uploads == old(uploads) + Accepted(file)
    {
      error := None;
      if file.Some? {
        if IsAcceptedType(file.value.fileType) {
          uploads := uploads + [file.value];
        } else {
          error := Some(InvalidFileTypeMessage);
        }
      }
    }

    /** `handleDragEnter`. */
    method HandleDragEnter()
      modifies this`isDragging
      ensures isDragging
    {
      isDragging := true;
    }

    /** `handleDragLeave`. */
    method HandleDragLeave()
      modifies this`isDragging
      ensures !isDragging
    {
      isDragging := false;
    }

    /** `handleDrop`: end the drag, then handle the first dropped file, if any. */
    method HandleDrop(files: Option<seq<File>>)
      modifies this
      ensures !isDragging
      ensures FirstFile(files).None? ==> error == old(error) && uploads == old(uploads)
      ensures FirstFile(files).Some? ==> error == ErrorAfter(FirstFile(files)) && uploads == old(uploads) + Accepted(FirstFile(files))
    {
      isDragging := false;
      var first := FirstFile(files);
      if first.Some? {
        HandleFile(first);
      }
    }

    /** `handleFileChange`: handle the first chosen file, if any. */
    method HandleFileChange(files: Option<seq<File>>)
      modifies this`error, this`uploads
      ensures FirstFile(files).None? ==> error == old(error) && uploads == old(uploads)
      ensures FirstFile(files).Some? ==> error == ErrorAfter(FirstFile(files)) && uploads == old(uploads) + Accepted(FirstFile(files))
    {
      var first := FirstFile(files);
      if first.Some? {
        HandleFile(first);
      }
    }
  }
}
