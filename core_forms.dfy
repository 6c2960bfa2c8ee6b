/**
 * core/forms.py: the older upload form.  Its `clean_file` applies the same extension rule as
 * the web app's form and differs only in the wording of its message; it accepts `.doc`, which
 * the text extractor then reports as unsupported.
 */
module CoreForms {
  import opened Wrappers
  import opened Strings
  import WebappForms
  import FileReader

  /** The message as this form words it (with two spaces before "files"). */
  const UnsupportedFormatMessage: string := "Unsupported file format. Only .txt, .pdf, .docx  files are allowed."

  /** `clean_file`: a falsy file is returned unchecked, an accepted one unchanged. */
  function CleanFile(file: Option<string>): WebappForms.FieldResult<Option<string>> {
    if file.None? || file.value == "" then WebappForms.Cleaned(file)
    else if WebappForms.HasAllowedExtension(file.value) then WebappForms.Cleaned(file)
    else WebappForms.Rejected([UnsupportedFormatMessage])
  }

  /** Both upload forms accept exactly the same files, return them unchanged, and reject the
      others with their own one message. */
  lemma SameRuleAsWebappForm(file: Option<string>)
    ensures CleanFile(file).Cleaned? <==> WebappForms.CleanFile(file).Cleaned?
    ensures CleanFile(file).Cleaned? ==> CleanFile(file).value == file
    ensures CleanFile(file).Rejected? ==> CleanFile(file).messages == [UnsupportedFormatMessage]
    ensures UnsupportedFormatMessage != WebappForms.UnsupportedFormatMessage
  {
    assert UnsupportedFormatMessage[51] != WebappForms.UnsupportedFormatMessage[51];
  }

  /** The rule in terms of the last segment of the lower-cased name. */
  lemma CleanFileRule(file: Option<string>)
    ensures CleanFile(file).Cleaned? <==>
      !WebappForms.Truthy(file) || WebappForms.IsAllowedWord(WebappForms.LastDotSegment(Lower(file.value)))
  {
    SameRuleAsWebappForm(file);
    WebappForms.CleanFileRule(file);
  }

  /** Any name `stem.doc` (the stem ending in neither `/` nor `.`) passes the upload form, yet
      the extractor answers it with its unsupported-type message, whatever the file holds. */
  lemma DocAcceptedButNotReadable(stem: string, body: FileReader.FileBody, libs: FileReader.Libraries)
    requires stem != [] && stem[|stem| - 1] != '/' && stem[|stem| - 1] != '.'
    requires body.Opened?
    ensures var name := stem + "." + "doc";
      && CleanFile(Some(name)) == WebappForms.Cleaned(Some(name))
      && FileReader.Extract(FileReader.FieldFile(name, body), libs) == FileReader.UnsupportedError(".doc")
  {
    WebappForms.DocNamesAccepted(stem);
    FileReader.DocIsUnsupported(stem, body, libs);
  }
}
