/**
 * The bylaws page's upload-and-summarise panel: the visitor picks a PDF, which
 * the panel keeps; asking for a summary starts reading the file, and the
 * reader's callbacks later deliver the summary or a read error. The panel's
 * messages come in English and Arabic.
 */
module BylawsClient {
  import opened Js
  import opened Ui

  const PdfType := "application/pdf"

  /** The keys of the panel's own message table. */
  const MessageKeys: set<string> := {"invalidFileType", "pleaseUploadPdf", "noFileSelected",
    "pleaseChoosePdf", "readFileError", "summaryError", "unknownError"}

  /** `clientOnlyTranslations[language]`. */
  function Messages(lang: Language): map<string, string> {
    match lang
    case En => map[
      "invalidFileType" := "Invalid File Type",
      "pleaseUploadPdf" := "Please upload a PDF file.",
      "noFileSelected" := "No File Selected",
      "pleaseChoosePdf" := "Please choose a PDF file to summarize.",
      "readFileError" := "Failed to read the selected file. Please try again.",
      "summaryError" := "Failed to generate summary.",
      "unknownError" := "An unknown error occurred."]
    case Ar => map[
      "invalidFileType" := "نوع ملف غير صالح",
      "pleaseUploadPdf" := "يرجى تحميل ملف PDF.",
      "noFileSelected" := "لم يتم اختيار ملف",
      "pleaseChoosePdf" := "يرجى اختيار ملف PDF لتلخيصه.",
      "readFileError" := "فشل في قراءة الملف المحدد. يرجى المحاولة مرة أخرى.",
      "summaryError" := "فشل في إنشاء الملخص.",
      "unknownError" := "حدث خطأ غير معروف."]
  }

  /** Both languages define the same messages, so every lookup the panel makes
      succeeds in either language, and no message is left empty. */
  lemma MessageTablesAgree(lang: Language, k: string)
    ensures Messages(En).Keys == Messages(Ar).Keys == MessageKeys
    ensures k in Messages(lang) ==> Messages(lang)[k] != ""
  {
  }

  /** The toast for a message pair of the current language. */
  function ErrorToast(lang: Language, title: string, description: string): Effect
    requires title in Messages(lang) && description in Messages(lang)
  {
    ShowToast(Toast(true, Messages(lang)[title], Some(Messages(lang)[description])))
  }

  /** A chosen file: its name and MIME type. */
  datatype FileInfo = FileInfo(name: string, mimeType: string)

  class BylawsClient {
    var file: Option<FileInfo>
    var summary: string
    var isLoading: bool
    var error: string

    /** No file, no summary, not loading, no error; the button starts disabled. */
    constructor ()
      ensures file.None? && summary == "" && !isLoading && error == ""
      ensures !SummarizeEnabled()
    {
      file := None;
      summary := "";
      isLoading := false;
      error := "";
    }

    /** The summarise button is enabled when a file is chosen and no request is
        being made. */
    predicate SummarizeEnabled(): (r: bool)
      reads this
      ensures r ==> file.Some?
      ensures isLoading ==> !r
      ensures file.Some? && !isLoading ==> r
    {
      !(isLoading || file.None?)
    }

    /** `handleFileChange`, `selected` being the first chosen file, if any. A
        non-PDF is refused: the kept file is dropped and the input cleared, but
        an earlier summary or error stays. A PDF is kept and clears both. */
    method HandleFileChange(selected: Option<FileInfo>, lang: Language) returns (effects: seq<Effect>)
      modifies this
      ensures selected.None? ==>
        effects == [] && file == old(file) && summary == old(summary) && error == old(error)
      ensures selected.Some? && selected.value.mimeType != PdfType ==>
        && effects == [ErrorToast(lang, "invalidFileType", "pleaseUploadPdf"), ClearFileInput]
        && file.None? && summary == old(summary) && error == old(error)
        && !SummarizeEnabled()
      ensures selected.Some? && selected.value.mimeType == PdfType ==>
        effects == [] && file == selected && summary == "" && error == ""
      ensures isLoading == old(isLoading)
    {
      effects := [];
      if selected.Some? {
        if selected.value.mimeType != PdfType {
          effects := [ErrorToast(lang, "invalidFileType", "pleaseUploadPdf"), ClearFileInput];
          file := None;
          return;
        }
        file := selected;
        summary := "";
        error := "";
      }
    }

    /** `handleSummarize`, up to the moment it returns: without a file it only
        reports that; with one it clears the summary and the error and starts
        reading the file, and the `finally` block has already turned loading off
        again by the time the read completes. */
    method HandleSummarize(lang: Language) returns (effects: seq<Effect>)
      modifies this
      ensures old(file).None? ==>
        && effects == [ErrorToast(lang, "noFileSelected", "pleaseChoosePdf")]
        && file == old(file) && summary == old(summary) && error == old(error) && isLoading == old(isLoading)
      ensures old(file).Some? ==>
        && effects == [ReadFile(old(file).value.name)]
        && file == old(file) && summary == "" && error == "" && !isLoading
        && SummarizeEnabled()
    {
      if file.None? {
        return [ErrorToast(lang, "noFileSelected", "pleaseChoosePdf")];
      }
      isLoading := true;
      error := "";
      summary := "";
      effects := [ReadFile(file.value.name)];
      isLoading := false;
    }

    /** `reader.onload`, once the summariser has answered. */
    method ReaderLoaded(result: string)
      modifies this
      ensures summary == result
      ensures file == old(file) && error == old(error) && isLoading == old(isLoading)
    {
      summary := result;
    }

    /** `reader.onerror`. `lang` is the language captured when Summarize was
        pressed, not the one active when the read fails. */
    method ReaderFailed(lang: Language)
      modifies this
      ensures error == Messages(lang)["readFileError"]
      ensures file == old(file) && summary == old(summary) && isLoading == old(isLoading)
    {
      error := Messages(lang)["readFileError"];
    }
  }
}
