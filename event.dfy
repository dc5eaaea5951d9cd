/** The events the newer API hands to the application (src/core/event.rs). */
module CoreEvent {
  import opened Ints

  /** A window size change, with the new size. */
  datatype Window = Window(width: U32, height: U32)

  /** State of the primary (left) mouse button; `changed` says whether `down` differs from just before. */
  datatype MouseEvent = MouseEvent(x: I32, y: I32, down: bool, changed: bool)

  datatype MouseWheelEvent = MouseWheelEvent(x: I32, y: I32, wheelDx: I32, wheelDy: I32)

  /** The key typed, accounting for keyboard layout, and whether it is down. */
  datatype KeyEvent = KeyEvent(key: Byte, down: bool)

  datatype Event =
    | Other
    | Quit
    | WindowEvent(window: Window)
    | Mouse(mouse: MouseEvent)
    | MouseWheel(wheel: MouseWheelEvent)
    | Key(keyEvent: KeyEvent)

  predicate IsLowerLetter(b: Byte) { 'a' as int <= b <= 'z' as int }

  /** The shifted symbol of each unshifted digit and punctuation key of a US layout. */
  const SHIFTED_SYMBOLS: map<char, char> := map[
    '1' := '!', '2' := '@', '3' := '#', '4' := '$', '5' := '%',
    '6' := '^', '7' := '&', '8' := '*', '9' := '(', '0' := ')',
    '-' := '_', '=' := '+', '[' := '{', ']' := '}', '\\' := '|',
    ';' := ':', '\'' := '"', ',' := '<', '.' := '>', '/' := '?', '`' := '~']

  /** `ascii_more_to_upper`: the byte the key gives with shift held, on a US layout. */
  function AsciiMoreToUpper(i: Byte): Byte
  {
    if IsLowerLetter(i) then i - 32
    else if i == '1' as int then '!' as int
    else if i == '2' as int then '@' as int
    else if i == '3' as int then '#' as int
    else if i == '4' as int then '$' as int
    else if i == '5' as int then '%' as int
    else if i == '6' as int then '^' as int
    else if i == '7' as int then '&' as int
    else if i == '8' as int then '*' as int
    else if i == '9' as int then '(' as int
    else if i == '0' as int then ')' as int
    else if i == '-' as int then '_' as int
    else if i == '=' as int then '+' as int
    else if i == '[' as int then '{' as int
    else if i == ']' as int then '}' as int
    else if i == '\\' as int then '|' as int
    else if i == ';' as int then ':' as int
    else if i == '\'' as int then '"' as int
    else if i == ',' as int then '<' as int
    else if i == '.' as int then '>' as int
    else if i == '/' as int then '?' as int
    else if i == '`' as int then '~' as int
    else i
  }

  /** Letters become their capitals, the listed keys their shifted symbols, and every other byte stays as it is. */
  lemma AsciiMoreToUpperSpec(i: Byte)
    ensures IsLowerLetter(i) ==> AsciiMoreToUpper(i) == i - 32 && 'A' as int <= AsciiMoreToUpper(i) <= 'Z' as int
    ensures i as char in SHIFTED_SYMBOLS ==> AsciiMoreToUpper(i) == SHIFTED_SYMBOLS[i as char] as int
  {
  }

  /** Every byte that is neither a lower-case letter nor a listed key is returned unchanged. */
  lemma AsciiMoreToUpperOthers(i: Byte)
    ensures !IsLowerLetter(i) && i as char !in SHIFTED_SYMBOLS ==> AsciiMoreToUpper(i) == i
  {
  }

  /** Shifting twice is shifting once, and the result is never a lower-case letter. */
  lemma AsciiMoreToUpperIdempotent(i: Byte)
    ensures AsciiMoreToUpper(AsciiMoreToUpper(i)) == AsciiMoreToUpper(i)
    ensures !IsLowerLetter(AsciiMoreToUpper(i))
  {
  }
}
