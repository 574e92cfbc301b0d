/** The two string helpers of handlers/utils.go: pulling the provider's
    error code out of an error message, and giving a phone number a leading
    "+". Go indexes strings by byte; the model indexes by character, which
    agrees on the ASCII text these helpers see.
 */
module Text {
  import opened Base
  import opened Strings

  const CodeMarker: string := ", code: "
  const FieldSeparator: string := ", "

  // ---------------------------------------------------------------------------
  // GetPlaidErrorCode
  // ---------------------------------------------------------------------------

  /** GetPlaidErrorCode as written: the text after the first ", code: " up
      to the next ", ". The index of the marker is used without testing it
      for -1, so a message without the marker is read from position 7. A
      slice whose bounds are out of order or past the end panics. */
  function GetPlaidErrorCode(msg: string): (r: Result<string>)
    ensures r.Err? ==> r.error.Panic?
    ensures var start := Index(msg, CodeMarker) + |CodeMarker|;
      && (r.Ok? <==> start <= |msg| && Contains(msg[start..], FieldSeparator))
      && (r.Ok? ==> OccursAt(msg, r.value + FieldSeparator, start) && !Contains(r.value, FieldSeparator))
  {
    var start := Index(msg, CodeMarker) + |CodeMarker|;
    if start > |msg| then Err(Panic("slice bounds out of range"))
    else
      var k := Index(msg[start..], FieldSeparator);
      CodeBeforeSeparator(msg, start);
      if k == -1 then Err(Panic("slice bounds out of range"))
      else Ok(msg[start..start + k])
  }

  /** The text from `start` up to the first ", " after it is followed there
      by ", " and holds none; there is such text iff a ", " follows. */
  lemma CodeBeforeSeparator(msg: string, start: nat)
    requires start <= |msg|
    ensures var k := Index(msg[start..], FieldSeparator);
      && (k >= 0 <==> Contains(msg[start..], FieldSeparator))
      && (k >= 0 ==> OccursAt(msg, msg[start..start + k] + FieldSeparator, start)
                     && !Contains(msg[start..start + k], FieldSeparator))
  {
    var tail := msg[start..];
    var k := Index(tail, FieldSeparator);
    IndexSpec(tail, FieldSeparator);
    if k >= 0 {
      BeforeFirstOccurrence(tail, FieldSeparator);
      var code := msg[start..start + k];
      assert code == tail[..k];
      assert msg[start..start + |code + FieldSeparator|] == code + FieldSeparator by {
        assert tail[k..k + |FieldSeparator|] == FieldSeparator;
        assert msg[start..start + |code + FieldSeparator|] == tail[..k + |FieldSeparator|];
      }
    }
  }

  /** The evidently intended reading: a message without the marker, or
      without a ", " after it, has no code. */
  function ErrorCode(msg: string): (r: Option<string>)
    ensures Index(msg, CodeMarker) == -1 ==> r == None
    ensures Index(msg, CodeMarker) >= 0 ==> (r.Some? <==> GetPlaidErrorCode(msg).Ok?)
    ensures r.Some? ==> GetPlaidErrorCode(msg) == Ok(r.value)
  {
    if Index(msg, CodeMarker) == -1 then None
    else match GetPlaidErrorCode(msg)
      case Ok(code) => Some(code)
      case Err(_) => None
  }

  // ---------------------------------------------------------------------------
  // FormatPhoneNumber
  // ---------------------------------------------------------------------------

  /** FormatPhoneNumber: prepend "+" unless the number already starts with
      one. Slicing the first character of an empty string panics. */
  function FormatPhoneNumber(pn: string): (r: Result<string>)
    ensures r.Err? <==> pn == []
    ensures r.Ok? ==> |r.value| > 0 && r.value[0] == '+' && (r.value == pn || r.value == "+" + pn)
    ensures r.Ok? && pn[0] == '+' ==> r.value == pn
  {
    if pn == [] then Err(Panic("slice bounds out of range"))
    else if pn[0] != '+' then Ok("+" + pn)
    else Ok(pn)
  }

  /** Formatting twice is formatting once, and formatting only ever adds
      the one "+" in front: dropping it gives back the input. */
  lemma FormatPhoneNumberIdempotent(pn: string)
    requires pn != []
    ensures FormatPhoneNumber(FormatPhoneNumber(pn).value) == FormatPhoneNumber(pn)
    ensures var f := FormatPhoneNumber(pn).value; pn == f || pn == f[1..]
  {
    var f := FormatPhoneNumber(pn).value;
    if pn[0] != '+' {
      assert f[1..] == pn;
    }
  }
}
