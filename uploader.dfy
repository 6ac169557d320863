/**
 * `ResumeUploader`: the file chosen in the file input, the guard of the
 * "Analyze My Resume" button, and its disabled state and label.
 */
module Uploader {
  import opened Wrappers
  import opened Api

  const IdleLabel := "Analyze My Resume"
  const BusyLabel := "Analyzing..."

  class ResumeUploader {
    /** `selectedFile`: `null` at first, then the first file of the last change. */
    var selectedFile: Option<File>

    constructor ()
      ensures selectedFile.None?
    {
      selectedFile := None;
    }

    /** `setSelectedFile(event.target.files[0])`: an empty choice gives `undefined`. */
    method HandleFileChange(files: seq<File>)
      modifies this
      ensures |files| > 0 ==> selectedFile == Some(files[0])
      ensures |files| == 0 ==> selectedFile.None?
    {
      if |files| > 0 {
        selectedFile := Some(files[0]);
      } else {
        selectedFile := None;
      }
    }

    /**
     * The file handed to `onUpload`, or `None` when the click does nothing:
     * a click uploads exactly when the button would be enabled were no
     * upload loading, and it uploads the file the name line shows.
     */
    method HandleUploadClick() returns (uploaded: Option<File>)
      ensures uploaded.Some? <==> !ButtonDisabled(false)
      ensures uploaded.Some? ==> uploaded == selectedFile
      ensures uploaded.Some? ==> FileNameLine() == Some("Selected file: " + uploaded.value.name)
    {
      if selectedFile.Some? {
        uploaded := Some(selectedFile.value);
      } else {
        uploaded := None;
      }
    }

    function ButtonDisabled(isLoading: bool): (disabled: bool)
      reads this
      ensures disabled <==> selectedFile.None? || isLoading
    {
      match selectedFile
      case None => true
      case Some(_) => isLoading
    }

    /** `Selected file: <name>`, shown only while a file is selected. */
    function FileNameLine(): (line: Option<string>)
      reads this
      ensures line.Some? <==> selectedFile.Some?
      ensures line.Some? ==> line.value == "Selected file: " + selectedFile.value.name
    {
      match selectedFile
      case None => None
      case Some(f) => Some("Selected file: " + f.name)
    }
  }

  function ButtonLabel(isLoading: bool): (caption: string)
    ensures caption == BusyLabel <==> isLoading
    ensures caption == IdleLabel <==> !isLoading
  {
    if isLoading then BusyLabel else IdleLabel
  }

  /** An enabled button has a file behind it and is not labelled busy. */
  lemma EnabledButtonHasFile(u: ResumeUploader, isLoading: bool)
    requires !u.ButtonDisabled(isLoading)
    ensures u.selectedFile.Some? && u.FileNameLine().Some?
    ensures ButtonLabel(isLoading) == IdleLabel
  {
  }
}
