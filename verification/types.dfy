/** The two string-literal unions every component is parameterised by. */
module Types {

  datatype WritingType = Email | Blog | Story | Suggestion

  datatype Tone = Formal | Casual | Professional | Friendly

  /** The literal a writing type stands for, as interpolated into prompts. */
  function TypeName(t: WritingType): string {
    match t
    case Email => "email"
    case Blog => "blog"
    case Story => "story"
    case Suggestion => "suggestion"
  }

  /** The literal a tone stands for, as interpolated into prompts. */
  function ToneName(tone: Tone): string {
    match tone
    case Formal => "formal"
    case Casual => "casual"
    case Professional => "professional"
    case Friendly => "friendly"
  }
}
