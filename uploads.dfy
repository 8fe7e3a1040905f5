/**
 * The image rules of the upload configuration: the public URL of a stored
 * file, the checks on a picture the dispenser sends, the name it is saved
 * under, and the delete helpers' early exits.  The file system and
 * base64_decode() are inputs.
 */
module Uploads {
  import opened Wrappers
  import opened Strings
  import opened Php
  import ConfigLoader

  /** empty() for a file name that may be null. */
  predicate NoName(filename: Option<string>)
  {
    filename.None? || EmptyString(filename.value)
  }

  /** getImageUrl(): the upload base URL followed by the file's basename, or null. */
  function ImageUrl(config: ConfigLoader.UploadConfig, filename: Option<string>): (r: Option<string>)
    ensures r.None? <==> NoName(filename)
    ensures r.Some? ==> exists name :: r.value == config.baseUrl + name && name == Basename(filename.value) && '/' !in name
  {
    if NoName(filename) then None else Some(config.baseUrl + Basename(filename.value))
  }

  /** The base URL of the pictures folder: every "/uploads/" of the upload base replaced. */
  function PictureBase(config: ConfigLoader.UploadConfig): string
  {
    ReplaceAll(config.baseUrl, "/uploads/", "/pictures/")
  }

  /** getPictureUrl(). */
  function PictureUrl(config: ConfigLoader.UploadConfig, filename: Option<string>): (r: Option<string>)
    ensures r.None? <==> NoName(filename)
    ensures r.Some? ==> r.value == PictureBase(config) + Basename(filename.value)
  {
    if NoName(filename) then None else Some(PictureBase(config) + Basename(filename.value))
  }

  /** A file stored as dir/name is served under its bare name. */
  lemma ImageUrlOfStoredName(config: ConfigLoader.UploadConfig, dir: string, name: string)
    requires |name| > 0 && '/' !in name
    ensures ImageUrl(config, Some(dir + "/" + name)) == Some(config.baseUrl + name)
    ensures PictureUrl(config, Some(dir + "/" + name)) == Some(PictureBase(config) + name)
  {
    BasenameOfName(dir, name);
  }

  /** When the upload base has no "/uploads/" segment, both URL rules agree. */
  lemma PictureUrlWithoutUploads(config: ConfigLoader.UploadConfig, filename: Option<string>)
    requires !Contains(config.baseUrl, "/uploads/")
    ensures PictureUrl(config, filename) == ImageUrl(config, filename)
  {
    ReplaceAbsent(config.baseUrl, "/uploads/", "/pictures/");
  }

  /** The outcome of validateESP32ImageData(). */
  datatype ImageCheck =
    | Accepted(sizeBytes: nat, extension: string)
    | TooSmall
    | TooLarge
    | BadExtension

  /** in_array() of the extension in the allowed extensions, loose. */
  predicate ExtensionAllowed(config: ConfigLoader.UploadConfig, extension: string)
  {
    InArrayLoose(Str(extension), seq(|config.allowedExtensions|, i requires 0 <= i < |config.allowedExtensions| => Str(config.allowedExtensions[i])))
  }

  /**
   * validateESP32ImageData().  data is what base64_decode() returned, None
   * for false.  A filename is only checked when it is truthy.
   */
  function ValidateImageData(config: ConfigLoader.UploadConfig, data: Option<seq<bv8>>, filename: Option<string>): (r: ImageCheck)
    ensures r == TooSmall <==> data.None? || |data.value| < 100
    ensures r.Accepted? <==>
      && data.Some? && 100 <= |data.value| <= config.maxSize
      && (!NoName(filename) ==> ExtensionAllowed(config, ToLower(Extension(filename.value))))
    ensures r.Accepted? ==> r.sizeBytes == |data.value|
    ensures r.Accepted? ==> r.extension == if NoName(filename) then "jpg" else Extension(filename.value)
  {
    if data.None? || |data.value| < 100 then TooSmall
    else if |data.value| > config.maxSize then TooLarge
    else if !NoName(filename) && !ExtensionAllowed(config, ToLower(Extension(filename.value))) then BadExtension
    else Accepted(|data.value|, if NoName(filename) then "jpg" else Extension(filename.value))
  }

  /** For an extension that is not numeric text the loose lookup is plain membership. */
  lemma ExtensionAllowedExactly(config: ConfigLoader.UploadConfig, extension: string)
    requires !IsIntString(extension)
    ensures ExtensionAllowed(config, extension) <==> extension in config.allowedExtensions
  {
    var hay := seq(|config.allowedExtensions|, i requires 0 <= i < |config.allowedExtensions| => Str(config.allowedExtensions[i]));
    if extension in config.allowedExtensions {
      var i :| 0 <= i < |config.allowedExtensions| && config.allowedExtensions[i] == extension;
      assert LooseEq(Str(extension), hay[i]);
    }
    if ExtensionAllowed(config, extension) {
      var k :| 0 <= k < |hay| && LooseEq(Str(extension), hay[k]);
      assert config.allowedExtensions[k] == extension;
    }
  }

  /**
   * The name handleESP32ImageUpload() saves under: the basename of a
   * non-blank custom name, otherwise pill_slot{n}_{timestamp}.jpg.
   * timestamp is date('Ymd_His').
   */
  function PictureFileName(slotNumber: int, customName: Option<string>, timestamp: string): (r: string)
    ensures customName.Some? && !EmptyString(customName.value) && !EmptyString(Trim(customName.value)) ==>
      r == Basename(Trim(customName.value)) && '/' !in r
    ensures !(customName.Some? && !EmptyString(customName.value) && !EmptyString(Trim(customName.value))) ==>
      r == "pill_slot" + IntToString(slotNumber) + "_" + timestamp + ".jpg"
  {
    if customName.Some? && !EmptyString(customName.value) && !EmptyString(Trim(customName.value)) then
      Basename(Trim(customName.value))
    else
      "pill_slot" + IntToString(slotNumber) + "_" + timestamp + ".jpg"
  }

  /** A generated name always carries the extension jpg, which the default configuration allows. */
  lemma GeneratedNameIsJpg(slotNumber: int, timestamp: string)
    requires '/' !in timestamp && '.' !in timestamp
    ensures Extension(PictureFileName(slotNumber, None, timestamp)) == "jpg"
  {
    var digits := IntToString(slotNumber);
    assert '/' !in digits && '.' !in digits by {
      var n := NatToString(if slotNumber < 0 then -slotNumber else slotNumber);
      assert forall i :: 0 <= i < |n| ==> IsDigit(n[i]);
    }
    var stem := "pill_slot" + digits + "_" + timestamp;
    assert '.' !in stem && '/' !in stem;
    assert PictureFileName(slotNumber, None, timestamp) == stem + "." + "jpg";
    ExtensionOfName(stem, "jpg");
  }

  /** The saved picture: its file name and public URL. */
  datatype Saved = Saved(filename: string, url: Option<string>, sizeBytes: nat)

  /**
   * handleESP32ImageUpload().  dirExists stands for is_dir() of the pictures
   * folder and written for what file_put_contents() returned.
   */
  function SavePicture(config: ConfigLoader.UploadConfig, data: Option<seq<bv8>>, slotNumber: int, customName: Option<string>,
                       timestamp: string, dirExists: bool, written: Option<nat>): (r: Option<Saved>)
    ensures r.Some? ==> dirExists && written.Some? && written.value > 100
    ensures r.Some? ==> ValidateImageData(config, data, Some(PictureFileName(slotNumber, customName, timestamp))).Accepted?
    ensures r.Some? ==> r.value.filename == PictureFileName(slotNumber, customName, timestamp)
                        && r.value.url == PictureUrl(config, Some(r.value.filename))
    ensures (dirExists && written.Some? && written.value > 100
             && ValidateImageData(config, data, Some(PictureFileName(slotNumber, customName, timestamp))).Accepted?) ==> r.Some?
  {
    if !dirExists then None
    else
      var name := PictureFileName(slotNumber, customName, timestamp);
      if !ValidateImageData(config, data, Some(name)).Accepted? then None
      else if written.Some? && written.value > 100 then Some(Saved(name, PictureUrl(config, Some(name)), written.value))
      else None
  }

  /**
   * deletePictureImage() and deleteOldImage(): nothing to do is success;
   * fileExists and unlinked stand for file_exists() and unlink() on the basename.
   */
  function DeleteImage(filename: Option<string>, fileExists: string -> bool, unlinked: bool): (r: bool)
    ensures NoName(filename) ==> r
    ensures !NoName(filename) && !fileExists(Basename(filename.value)) ==> r
    ensures !r ==> !NoName(filename) && fileExists(Basename(filename.value)) && !unlinked
  {
    if NoName(filename) then true
    else if fileExists(Basename(filename.value)) then unlinked
    else true
  }
}
