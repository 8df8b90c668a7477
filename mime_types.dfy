/** The content types the web server sends with the files it serves, keyed
    by file extension, and the case-insensitive lookup into them. */
module MimeTypes {
  import opened Text

  /** Extension (lower case, without the dot) to content type. */
  const MimeTypeMap: map<string, string> := map[
      "au" := "audio/basic",
      "avi" := "video/msvideo",
      "bmp" := "image/bmp",
      "bz2" := "application/x-bzip2",
      "css" := "text/css",
      "dtd" := "application/xml-dtd",
      "doc" := "application/msword",
      "docx" := "application/vnd.openxmlformats-officedocument.wordprocessingml.document",
      "dotx" := "application/vnd.openxmlformats-officedocument.wordprocessingml.template",
      "es" := "application/ecmascript",
      "exe" := "application/octet-stream",
      "gif" := "image/gif",
      "gz" := "application/x-gzip",
      "hqx" := "application/mac-binhex40",
      "htm" := "text/html",
      "html" := "text/html",
      "jar" := "application/java-archive",
      "jpg" := "image/jpeg",
      "js" := "application/x-javascript",
      "json" := "application/x-json",
      "midi" := "audio/x-midi",
      "mp3" := "audio/mpeg",
      "mpeg" := "video/mpeg",
      "ogg" := "audio/vorbis",
      "pdf" := "application/pdf",
      "pl" := "application/x-perl",
      "png" := "image/png",
      "potx" := "application/vnd.openxmlformats-officedocument.presentationml.template",
      "ppsx" := "application/vnd.openxmlformats-officedocument.presentationml.slideshow",
      "ppt" := "application/vnd.ms-powerpointtd>",
      "pptx" := "application/vnd.openxmlformats-officedocument.presentationml.presentation",
      "ps" := "application/postscript",
      "qt" := "video/quicktime",
      "rtf" := "application/rtf",
      "sgml" := "text/sgml",
      "sit" := "application/x-stuffit",
      "sldx" := "application/vnd.openxmlformats-officedocument.presentationml.slide",
      "svg" := "image/svg+xml",
      "swf" := "application/x-shockwave-flash",
      "tar.gz" := "application/x-tar",
      "tgz" := "application/x-tar",
      "tiff" := "image/tiff",
      "tsv" := "text/tab-separated-values",
      "txt" := "text/plain",
      "wav" := "audio/wav",
      "xlam" := "application/vnd.ms-excel.addin.macroEnabled.12",
      "xls" := "application/vnd.ms-excel",
      "xlsb" := "application/vnd.ms-excel.sheet.binary.macroEnabled.12",
      "xlsx" := "application/vnd.openxmlformats-officedocument.spreadsheetml.sheet",
      "xltx" := "application/vnd.openxmlformats-officedocument.spreadsheetml.template",
      "xml" := "application/xml",
      "zip" := "application/zip"
    ]

  /** The content type for an extension, looked up after lower-casing it; the
      empty string when the extension is not in the table. */
  function GetMimeType(s: string): (r: string)
    ensures MakeLower(s) in MimeTypeMap ==> r == MimeTypeMap[MakeLower(s)]
    ensures MakeLower(s) !in MimeTypeMap ==> r == ""
  {
    var ext := MakeLower(s);
    if ext in MimeTypeMap then MimeTypeMap[ext] else ""
  }

  /** "htm" and "html" name the same type, HTML, in any letter case. */
  lemma HtmlExtensions(s: string)
    requires MakeLower(s) == "htm" || MakeLower(s) == "html"
    ensures GetMimeType(s) == "text/html"
  {
  }

  /** Lower-casing an already lower-cased string changes nothing. */
  lemma {:induction false} MakeLowerIdempotent(s: string)
    ensures MakeLower(MakeLower(s)) == MakeLower(s)
  {
    if s != [] {
      MakeLowerIdempotent(s[1..]);
      assert MakeLower(s) == [ToLowerChar(s[0])] + MakeLower(s[1..]);
    }
  }

  /** Upper-casing then lower-casing is lower-casing. */
  lemma {:induction false} LowerOfUpper(s: string)
    ensures MakeLower(MakeUpper(s)) == MakeLower(s)
  {
    if s != [] {
      LowerOfUpper(s[1..]);
      assert MakeUpper(s) == [ToUpperChar(s[0])] + MakeUpper(s[1..]);
      assert ToLowerChar(ToUpperChar(s[0])) == ToLowerChar(s[0]);
    }
  }

  /** The lookup ignores letter case: an extension, its lower-case form and
      its upper-case form give the same content type. */
  lemma LookupIgnoresCase(s: string)
    ensures GetMimeType(MakeLower(s)) == GetMimeType(s)
    ensures GetMimeType(MakeUpper(s)) == GetMimeType(s)
  {
    MakeLowerIdempotent(s);
    LowerOfUpper(s);
  }
}
