/** The image upload gateway: the file name and MIME type derived from the
    image's URI, and the classification of how the upload ended. */
module ImageService {
  import opened Base
  import opened Strings
  import opened Http

  const DefaultFileName := "image.jpg"
  const DefaultMimeType := "image/jpeg"

  /** `imageUri.split('/').pop() || 'image.jpg'`: the text after the last '/',
      unless it is empty. */
  function FileName(uri: string): (name: string)
    ensures name != [] && '/' !in name
    ensures uri == [] || uri[|uri| - 1] == '/' ==> name == DefaultFileName
    ensures uri != [] && uri[|uri| - 1] != '/' ==>
      |name| <= |uri| && name == uri[|uri| - |name|..] && (|name| < |uri| ==> uri[|uri| - |name| - 1] == '/')
  {
    var last := LastPiece(uri, '/');
    if last == [] then DefaultFileName
    else
      assert uri[|uri| - 1] == last[|last| - 1];
      last
  }

  /** The longest suffix of `s` made of word characters (`\w`). */
  function WordRun(s: string): (w: string)
    ensures |w| <= |s| && w == s[|s| - |w|..]
    ensures forall i :: 0 <= i < |w| ==> IsWordChar(w[i])
    ensures |w| < |s| ==> !IsWordChar(s[|s| - |w| - 1])
  {
    if s != [] && IsWordChar(s[|s| - 1]) then
      var w := WordRun(s[..|s| - 1]);
      w + [s[|s| - 1]]
    else
      []
  }

  /** The MIME type sent with the file: `image/` followed by what
      `/\.(\w+)$/` captures, or `image/jpeg` when it does not match. */
  function MimeType(fileName: string): string {
    var ext := WordRun(fileName);
    if 0 < |ext| < |fileName| && fileName[|fileName| - |ext| - 1] == '.' then "image/" + ext
    else DefaultMimeType
  }

  /** The regular expression `/\.(\w+)$/` matches `s` with its '.' at `p`. */
  ghost predicate ExtensionAt(s: string, p: int) {
    0 <= p < |s| - 1 && s[p] == '.' && forall k :: p < k < |s| ==> IsWordChar(s[k])
  }

  /** `MimeType` agrees with the regular expression: a match gives its capture
      with its case kept... */
  lemma MimeTypeOfMatch(s: string, p: int)
    requires ExtensionAt(s, p)
    ensures MimeType(s) == "image/" + s[p + 1..]
  {
    ExtensionIsWordRun(s, p);
  }

  /** ...and no match gives the default. */
  lemma MimeTypeWithoutMatch(s: string)
    requires forall p :: !ExtensionAt(s, p)
    ensures MimeType(s) == DefaultMimeType
  {
    WordRunExtension(s);
    assert !ExtensionAt(s, |s| - |WordRun(s)| - 1);
  }

  /** When the word run is preceded by a '.', the pattern matches there. */
  lemma WordRunExtension(s: string)
    ensures var w := WordRun(s);
      0 < |w| < |s| && s[|s| - |w| - 1] == '.' ==> ExtensionAt(s, |s| - |w| - 1)
  {
    var w := WordRun(s);
    var q := |s| - |w| - 1;
    assert forall k :: q < k < |s| ==> s[k] == w[k - q - 1];
  }

  lemma ExtensionIsWordRun(s: string, p: int)
    requires ExtensionAt(s, p)
    ensures WordRun(s) == s[p + 1..]
  {
    var w := WordRun(s);
    var q := |s| - |w|;
    // the run reaches back to `p + 1`, and no further since `s[p]` is a '.'
    assert forall j :: q <= j < |s| ==> s[j] == w[j - q];
    assert q == p + 1;
  }

  /** Examples: only the last extension counts, and a trailing dot is no
      extension. */
  lemma MimeTypeExamples()
    ensures MimeType("a.tar.gz") == "image/gz"
    ensures MimeType(DefaultFileName) == "image/jpg"
    ensures MimeType("file.") == DefaultMimeType
  {
    assert ExtensionAt("a.tar.gz", 5);
    MimeTypeOfMatch("a.tar.gz", 5);
    assert ExtensionAt(DefaultFileName, 5);
    MimeTypeOfMatch(DefaultFileName, 5);
    assert WordRun("file.") == [];
  }

  /** The file part of the form: the URI, and the name and type derived from it. */
  datatype FilePart = FilePart(uri: string, name: string, mimeType: string)

  function UploadPart(uri: string): FilePart {
    FilePart(uri, FileName(uri), MimeType(FileName(uri)))
  }

  /** A URI whose last segment is empty uploads as `image.jpg`, of type `image/jpg`. */
  lemma DirectoryUriUploadsAsDefault(uri: string)
    requires uri == [] || uri[|uri| - 1] == '/'
    ensures UploadPart(uri) == FilePart(uri, "image.jpg", "image/jpg")
  {
    MimeTypeExamples();
  }

  /** The `data` of an upload response; `url` is `""` when it is missing. */
  datatype ImageData = ImageData(url: string, key: string, size: int, contentType: string)

  datatype ImageBody = ImageBody(success: bool, data: Option<ImageData>)

  const MissingUrl := "URL de imagen no disponible en la respuesta"
  const UploadUnauthorized := "No autorizado para subir imágenes"

  function TryUpload(o: Outcome<Option<ImageBody>>): Attempt<string> {
    match Await(o)
    case Raised(e) => Raised(e)
    case Completed(body) =>
      if body.None? || body.value.data.None? || body.value.data.value.url == "" then Raised(ErrorCaught(MissingUrl))
      else Completed(body.value.data.value.url)
  }

  /** The `catch` block: any axios error is told apart by its status, a status
      that is missing or 0 counting as a network failure; any other error is
      reported with its own message. */
  function CatchUpload(e: Caught): string {
    match e
    case AxiosCaught(status, message) =>
      if status == Some(401) then UploadUnauthorized
      else if status.Some? && status.value != 0 then "Error HTTP " + IntToString(status.value) + " al subir imagen"
      else "Error de red: " + message
    case ErrorCaught(message) => "Error al subir la imagen: " + message
  }

  predicate HasUrl(o: Outcome<Option<ImageBody>>) {
    o.Ok? && o.body.Some? && o.body.value.data.Some? && o.body.value.data.value.url != ""
  }

  /** `uploadImage`: resolves with the URL of the stored image. A response
      without one is thrown inside the `try` and reaches the `catch` as a
      non-axios error. */
  function UploadImage(o: Outcome<Option<ImageBody>>): (r: Settled<string>)
    ensures r.Returns? <==> HasUrl(o)
    ensures r.Returns? ==> r.value == o.body.value.data.value.url && r.value != ""
    ensures o.Ok? && !HasUrl(o) ==> r == Throws("Error al subir la imagen: " + MissingUrl)
    ensures o.HttpErr? ==>
      r == Throws(if o.status == 401 then UploadUnauthorized
                  else if o.status != 0 then "Error HTTP " + IntToString(o.status) + " al subir imagen"
                  else "Error de red: " + o.message)
    ensures o.NoResponse? ==> r == Throws("Error de red: " + o.message)
    ensures o.NonAxios? ==> r == Throws("Error al subir la imagen: " + o.message)
  {
    match TryUpload(o)
    case Completed(url) => Returns(url)
    case Raised(e) => Throws(CatchUpload(e))
  }
}
