/** The writing-correction tool (components/WritingModule.tsx): input validation and the result slot. */
module Writing {
  import opened Types
  import Inputs

  /** Text shorter than this many characters is refused in text mode. */
  const MinTextLength := 10
  const CheckXP := 20

  datatype Rejection = EmptyContent | TooShort

  datatype Checked = Accepted(content: string) | Rejected(reason: Rejection)

  /** The two guards `handleCheck` applies before any request. */
  function Validate(kind: InputKind, text: string, image: Option<string>): (r: Checked)
    ensures kind == TextInput ==> (r.Accepted? <==> |text| >= MinTextLength)
    ensures kind == TextInput && r.Accepted? ==> r.content == text
    ensures kind == ImageInput ==> r != Rejected(TooShort)
    ensures kind == ImageInput ==> (r.Accepted? <==> Inputs.Present(Inputs.Content(kind, text, image)))
    ensures r.Accepted? ==> r.content != "" && Some(r.content) == Inputs.Content(kind, text, image)
  {
    var content := Inputs.Content(kind, text, image);
    if !Inputs.Present(content) then Rejected(EmptyContent)
    else if kind == TextInput && |content.value| < MinTextLength then Rejected(TooShort)
    else Accepted(content.value)
  }

  class WritingSession {
    var inputMode: InputKind
    var text: string
    var selectedImage: Option<string>   // the chosen image as a data URL
    var result: Option<WritingAnalysis>
    var loading: bool

    constructor ()
      ensures inputMode == TextInput && text == "" && selectedImage == None
      ensures result == None && !loading
    {
      inputMode, text, selectedImage := TextInput, "", None;
      result, loading := None, false;
    }

    /** `handleCheck`: `reply` is what the grading request returned; it is not issued when validation refuses. */
    method Check(reply: Outcome<WritingAnalysis>) returns (xp: nat)
      modifies this`result, this`loading
      ensures Validate(inputMode, text, selectedImage).Rejected? ==>
        result == old(result) && loading == old(loading) && xp == 0
      ensures Validate(inputMode, text, selectedImage).Accepted? ==> !loading
      ensures Validate(inputMode, text, selectedImage).Accepted? && reply.Success? ==>
        result == Some(reply.value) && xp == CheckXP
      ensures Validate(inputMode, text, selectedImage).Accepted? && reply.Failure? ==>
        result == None && xp == 0
    {
      var checked := Validate(inputMode, text, selectedImage);
      if checked.Rejected? {
        return 0;
      }
      loading := true;
      result := None;
      match reply {
        case Success(analysis) =>
          result := Some(analysis);
          xp := CheckXP;
        case Failure(_) =>
          xp := 0;
      }
      loading := false;
    }

    /** The remove button on the chosen image. */
    method RemoveImage()
      modifies this`selectedImage
      ensures selectedImage == None
    {
      selectedImage := None;
    }
  }
}
