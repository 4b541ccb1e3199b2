/** The quoting state machine that reads the value of an assignment. Substitution is recorded, never
    performed. */
module DotenvValue {
  import opened Prelude

  datatype ParseError =
    | NoName | ExportWithoutName | NoEquals
    | UnexpectedAfterValue(c: char) | InvalidEscape(c: char) | UnterminatedValue

  datatype SubMode = NoSub | Block | EscapedBlock

  datatype ValueState = ValueState(
    strongQuote: bool, weakQuote: bool, escaped: bool, expectingEnd: bool,
    subMode: SubMode, output: string, hasReference: bool)

  datatype Step = Go(st: ValueState) | Stop | Fail(error: ParseError)

  datatype Value = Value(text: string, hasReference: bool)

  const START_OF_VALUE := ValueState(false, false, false, false, NoSub, "", false)

  predicate IsAlnum(c: char) {
    'a' <= c <= 'z' || 'A' <= c <= 'Z' || '0' <= c <= '9'
  }

  function Emit(st: ValueState, c: char): ValueState {
    st.(output := st.output + [c])
  }

  function ValueStep(st: ValueState, c: char): Step {
    if st.expectingEnd then
      if c == ' ' || c == '\t' then Go(st) else if c == '#' then Stop else Fail(UnexpectedAfterValue(c))
    else if st.escaped then
      if c == '\\' || c == '\'' || c == '"' || c == '$' || c == ' ' then Go(Emit(st, c).(escaped := false))
      else if c == 'n' then Go(Emit(st, '\n').(escaped := false))
      else Fail(InvalidEscape(c))
    else if st.strongQuote then
      Go(if c == '\'' then st.(strongQuote := false) else Emit(st, c))
    else if st.subMode != NoSub then
      if IsAlnum(c) then Go(st)
      else if st.subMode == Block then
        if c == '{' then Go(st.(subMode := EscapedBlock))
        else if c == '$' then Go(st.(hasReference := true))
        else Go(Emit(st, c).(hasReference := true, subMode := NoSub))
      else Go(if c == '}' then st.(subMode := NoSub, hasReference := true) else st)
    else if c == '$' then Go(st.(subMode := Block))
    else if st.weakQuote then
      Go(if c == '"' then st.(weakQuote := false) else if c == '\\' then st.(escaped := true) else Emit(st, c))
    else if c == '\'' then Go(st.(strongQuote := true))
    else if c == '"' then Go(st.(weakQuote := true))
    else if c == '\\' then Go(st.(escaped := true))
    else if c == ' ' || c == '\t' then Go(st.(expectingEnd := true))
    else Go(Emit(st, c))
  }

  function EndOfValue(st: ValueState): Result<Value, ParseError> {
    if st.subMode == EscapedBlock || st.strongQuote || st.weakQuote then Err(UnterminatedValue)
    else Ok(Value(st.output, st.hasReference || st.subMode == Block))
  }

  function RunValue(st: ValueState, input: string): Result<Value, ParseError>
    decreases |input|
  {
    if input == "" then EndOfValue(st)
    else
      match ValueStep(st, input[0])
      case Go(next) => RunValue(next, input[1..])
      case Stop => EndOfValue(st)
      case Fail(error) => Err(error)
  }
}
