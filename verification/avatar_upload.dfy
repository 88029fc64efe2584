/**
 * The profile picture control: which chosen files are uploaded, what the
 * profile and the parent learn afterwards, and when the remove button shows.
 */
module AvatarUpload {
  import opened Wrappers
  import opened Text

  /** A chosen file: its MIME type and its size in bytes. */
  datatype File = File(mimeType: string, size: nat)

  const MaxAvatarBytes: nat := 5 * 1024 * 1024
  const NotAnImage: string := "Por favor seleccioná una imagen"
  const TooLarge: string := "La imagen no puede superar los 5MB"

  predicate StartsWith(s: string, prefix: string) {
    |prefix| <= |s| && s[..|prefix|] == prefix
  }

  predicate IsImage(f: File) {
    StartsWith(f.mimeType, "image/")
  }

  /** What choosing a file leads to. */
  datatype Selection =
    | Ignored                          // no file was chosen
    | Alerted(message: string)         // rejected before any upload
    | Uploaded(saved: Option<string>)  // uploaded; `saved` is the URL written to the profile and reported, if any

  /**
   * Choosing a file. The type is checked before the size; `uploadResult` is
   * the storage's answer, and only a non-empty URL is saved and reported.
   */
  function SelectFile(file: Option<File>, uploadResult: Option<string>): (s: Selection)
    ensures s == Ignored <==> file.None?
    ensures s.Alerted? ==> s.message == NotAnImage || s.message == TooLarge
    ensures file.Some? && !IsImage(file.value) ==> s == Alerted(NotAnImage)
    ensures s == Alerted(TooLarge) <==> file.Some? && IsImage(file.value) && file.value.size > MaxAvatarBytes
    ensures s.Uploaded? <==> file.Some? && IsImage(file.value) && file.value.size <= MaxAvatarBytes
    ensures s.Uploaded? ==> (s.saved.Some? <==> Present(uploadResult))
    ensures s.Uploaded? && s.saved.Some? ==> s.saved.value == uploadResult.value && s.saved.value != ""
  {
    match file
    case None => Ignored
    case Some(f) =>
      if !IsImage(f) then Alerted(NotAnImage)
      else if f.size > MaxAvatarBytes then Alerted(TooLarge)
      else Uploaded(if Present(uploadResult) then uploadResult else None)
  }

  /** The limit is inclusive: a file of exactly 5 MiB is uploaded, one byte more is refused. */
  lemma SizeLimitIsInclusive(url: Option<string>)
    ensures SelectFile(Some(File("image/png", 5242880)), url).Uploaded?
    ensures SelectFile(Some(File("image/png", 5242881)), url) == Alerted(TooLarge)
  {
  }

  /** An oversized file that is not an image is reported as not an image. */
  lemma TypeCheckedBeforeSize(mimeType: string, size: nat, url: Option<string>)
    requires !StartsWith(mimeType, "image/")
    ensures SelectFile(Some(File(mimeType, size)), url) == Alerted(NotAnImage)
  {
  }

  /** The control's own state: busy flag and the local preview. */
  datatype Control = Control(uploading: bool, preview: Option<string>)

  /**
   * After an upload or a removal finishes, the control is idle and drops its
   * preview. This assumes the file reader has delivered the preview before the
   * upload ends; a later delivery would bring the preview back.
   */
  function Settle(c: Control): (d: Control)
    ensures !d.uploading && d.preview.None?
  {
    Control(false, None)
  }

  /** Removing the picture: the profile and the parent both get "no picture", and the control settles. */
  function RemoveAvatar(c: Control): (r: (Control, Option<string>))
    ensures r.1.None?
    ensures !r.0.uploading && r.0.preview.None?
  {
    (Settle(c), None)
  }

  /** The picture drawn: the preview when there is one, otherwise the current one. */
  function ShownAvatar(c: Control, current: Option<string>): (url: Option<string>)
    ensures Present(c.preview) ==> url == c.preview
    ensures !Present(c.preview) ==> url == current
  {
    if Present(c.preview) then c.preview else current
  }

  /** The remove button shows for a current picture while no upload is running. */
  function ShowsRemoveButton(c: Control, current: Option<string>): (shown: bool)
    ensures shown <==> Present(current) && !c.uploading
  {
    Present(current) && !c.uploading
  }

  /** Once a saved upload is reported back as the current picture, the remove button is offered. */
  lemma SavedUploadCanBeRemoved(file: File, url: string, c: Control)
    requires IsImage(file) && file.size <= MaxAvatarBytes && url != ""
    ensures SelectFile(Some(file), Some(url)) == Uploaded(Some(url))
    ensures ShowsRemoveButton(Settle(c), SelectFile(Some(file), Some(url)).saved)
  {
  }
}
