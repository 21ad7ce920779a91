/**
 * FileStorageService.storeImage: validates an uploaded image and names the stored file. Writing
 * the bytes to the upload directory is not part of this model; neither are `StringUtils.cleanPath`
 * and `UUID.randomUUID`, which are the parameters `cleanPath` and `generatedName`.
 */
module FileStorageService {
  import opened Wrappers
  import Strings

  /** The largest accepted size: 5 MiB. */
  const MaxBytes := 5 * 1024 * 1024

  /** What the code reads from the multipart file. An empty file has size 0. */
  datatype Upload = Upload(size: nat, contentType: Option<string>, originalFilename: Option<string>)

  /** The checks, in order: emptiness, then content type, then size. */
  function ValidationRefusal(file: Upload): (r: Option<Error>)
    ensures r.None? <==>
      file.size > 0 && file.contentType.Some? && Strings.StartsWith(file.contentType.value, "image/") && file.size <= MaxBytes
    ensures file.size == 0 ==> r == Some(IllegalArgument("File is empty"))
  {
    if file.size == 0 then Some(IllegalArgument("File is empty"))
    else if file.contentType.None? || !Strings.StartsWith(file.contentType.value, "image/") then
      Some(IllegalArgument("Only image uploads are allowed"))
    else if file.size > MaxBytes then Some(IllegalArgument("File size must be <= 5MB"))
    else None
  }

  /** The extension: from the last dot on, when there is a dot that is not the last character. */
  function Extension(name: string): (ext: string)
    ensures ext == "" <==> Strings.LastIndexOf(name, '.') == -1 || Strings.LastIndexOf(name, '.') == |name| - 1
    ensures ext != "" ==>
      |ext| >= 2 && ext[0] == '.' && '.' !in ext[1..] && |ext| <= |name| && ext == name[|name| - |ext|..]
  {
    var dot := Strings.LastIndexOf(name, '.');
    if dot != -1 && dot < |name| - 1 then name[dot..] else ""
  }

  /** `storeImage`: the URL the stored file is served at, or the validation error. */
  function StoreImage(file: Upload, cleanPath: string -> string, generatedName: string): (r: Result<string>)
    ensures ValidationRefusal(file).Some? ==> r == Err(ValidationRefusal(file).value)
    ensures r.Ok? ==> Strings.StartsWith(r.value, "/uploads/" + generatedName)
  {
    match ValidationRefusal(file)
    case Some(e) => Err(e)
    case None =>
      var original := cleanPath(if file.originalFilename.Some? then file.originalFilename.value else "image");
      var url := "/uploads/" + generatedName + Extension(original);
      assert url[..|"/uploads/" + generatedName|] == "/uploads/" + generatedName;
      Ok(url)
  }

  /** A name ending in a dot and a dot-free, non-empty suffix has that suffix as its extension. */
  lemma ExtensionOfDotted(base: string, suffix: string)
    requires suffix != "" && '.' !in suffix
    ensures Extension(base + "." + suffix) == "." + suffix
  {
    var name := base + "." + suffix;
    assert name[|base|] == '.';
    assert name[|base| + 1..] == suffix;
    var dot := Strings.LastIndexOf(name, '.');
    assert dot == |base|;
    assert name[dot..] == "." + suffix;
  }

  /** A name without a dot, such as the default `image`, has no extension. */
  lemma NoDotNoExtension(name: string)
    requires '.' !in name
    ensures Extension(name) == ""
  {
  }

  /** A file of exactly 5 MiB passes the size check; one byte more does not. */
  lemma SizeBoundary(contentType: string, name: Option<string>)
    requires Strings.StartsWith(contentType, "image/")
    ensures ValidationRefusal(Upload(MaxBytes, Some(contentType), name)).None?
    ensures ValidationRefusal(Upload(MaxBytes + 1, Some(contentType), name)) == Some(IllegalArgument("File size must be <= 5MB"))
  {
  }

  /**
   * An accepted upload is served at `/uploads/`, the generated name and the cleaned file name's
   * extension; with no original name the cleaned default `image` gives no extension.
   */
  lemma StoredUrl(file: Upload, cleanPath: string -> string, generatedName: string)
    requires ValidationRefusal(file).None?
    ensures var original := cleanPath(if file.originalFilename.Some? then file.originalFilename.value else "image");
      StoreImage(file, cleanPath, generatedName) == Ok("/uploads/" + generatedName + Extension(original))
    ensures file.originalFilename.None? && cleanPath("image") == "image" ==>
      StoreImage(file, cleanPath, generatedName) == Ok("/uploads/" + generatedName)
  {
    assert "image" == ['i', 'm', 'a', 'g', 'e'];
    NoDotNoExtension("image");
    assert "/uploads/" + generatedName + "" == "/uploads/" + generatedName;
  }
}
