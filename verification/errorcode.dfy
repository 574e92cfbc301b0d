/** Facts about GetPlaidErrorCode (handlers/utils.go:117-128): where the
    markers are found, the round trip from a message that embeds a code,
    and what the missing -1 test lets through. */
module ErrorCodes {
  import opened Base
  import opened Strings
  import opened Text

  /** When the marker is present, the call succeeds exactly when a ", "
      follows it, and the code never contains ", ". */
  lemma GetPlaidErrorCodeSpec(msg: string)
    ensures GetPlaidErrorCode(msg).Ok? ==> !Contains(GetPlaidErrorCode(msg).value, FieldSeparator)
    ensures Contains(msg, CodeMarker) ==>
      (GetPlaidErrorCode(msg).Ok? <==> Contains(msg[Index(msg, CodeMarker) + |CodeMarker|..], FieldSeparator))
  {
    var start := Index(msg, CodeMarker) + |CodeMarker|;
    IndexSpec(msg, CodeMarker);
    if start <= |msg| {
      var tail := msg[start..];
      var k := Index(tail, FieldSeparator);
      IndexSpec(tail, FieldSeparator);
      if k != -1 {
        assert msg[start..start + k] == tail[..k];
        BeforeFirstOccurrence(tail, FieldSeparator);
      }
    }
  }

  /** No proper suffix of ", code: " is a prefix of it: ',' occurs only at
      its first position. */
  lemma MarkerFirstOccurrence(prefix: string, after: string)
    requires !Contains(prefix, CodeMarker)
    ensures Index(prefix + CodeMarker + after, CodeMarker) == |prefix|
  {
    var s := prefix + CodeMarker + after;
    assert OccursAt(s, CodeMarker, |prefix|) by {
      assert s[|prefix|..|prefix| + 8] == CodeMarker;
    }
    forall p | 0 <= p < |prefix| ensures !OccursAt(s, CodeMarker, p) {
      if p + 8 <= |prefix| {
        assert s[p..p + 8] == prefix[p..p + 8];
        assert !OccursAt(prefix, CodeMarker, p);
      } else {
        var k := |prefix| - p;
        assert s[|prefix|] == ',' && CodeMarker[k] != ',';
        assert p + 8 <= |s| ==> s[p..p + 8][k] == s[|prefix|];
      }
    }
    IndexIsFirst(s, CodeMarker, |prefix|);
  }

  lemma SeparatorFirstOccurrence(code: string, rest: string)
    requires !Contains(code, FieldSeparator)
    ensures Index(code + FieldSeparator + rest, FieldSeparator) == |code|
  {
    var s := code + FieldSeparator + rest;
    assert OccursAt(s, FieldSeparator, |code|) by {
      assert s[|code|..|code| + 2] == FieldSeparator;
    }
    forall p | 0 <= p < |code| ensures !OccursAt(s, FieldSeparator, p) {
      if p + 2 <= |code| {
        assert s[p..p + 2] == code[p..p + 2];
        assert !OccursAt(code, FieldSeparator, p);
      } else {
        assert s[|code|] == ',' && FieldSeparator[1] != ',';
        assert p + 2 <= |s| ==> s[p..p + 2][1] == s[|code|];
      }
    }
    IndexIsFirst(s, FieldSeparator, |code|);
  }

  /** Where both markers are found, the code is the text between them. */
  lemma GetPlaidErrorCodeAt(msg: string, start: int, k: int)
    requires 0 <= start <= |msg| && Index(msg, CodeMarker) + |CodeMarker| == start
    requires 0 <= k && Index(msg[start..], FieldSeparator) == k
    ensures GetPlaidErrorCode(msg) == Ok(msg[start..start + k])
  {
    var r := GetPlaidErrorCode(msg);
    assert r.Ok? by {
      assert OccursAt(msg[start..], FieldSeparator, k);
    }
    assert r.value == msg[start..start + k];
  }

  /** Round trip: a code that carries no ", " is read back out of any
      message that embeds it after the first ", code: " and before a ", ". */
  lemma GetPlaidErrorCodeRoundTrip(prefix: string, code: string, rest: string)
    requires !Contains(prefix, CodeMarker) && !Contains(code, FieldSeparator)
    ensures GetPlaidErrorCode(prefix + CodeMarker + code + FieldSeparator + rest) == Ok(code)
  {
    var after := code + FieldSeparator + rest;
    var msg := prefix + CodeMarker + code + FieldSeparator + rest;
    assert msg == prefix + CodeMarker + after;
    MarkerFirstOccurrence(prefix, after);
    var start := |prefix| + 8;
    assert msg[start..] == after;
    SeparatorFirstOccurrence(code, rest);
    GetPlaidErrorCodeAt(msg, start, |code|);
    assert msg[start..start + |code|] == code;
  }

  /** Both markers start with ',': text with no ',' where either could
      start holds neither. */
  lemma NoCommaNoOccurrence(s: string, sub: string)
    requires |sub| > 0 && sub[0] == ','
    requires forall p :: 0 <= p && p + |sub| <= |s| ==> s[p] != ','
    ensures !Contains(s, sub)
  {
    forall p | 0 <= p <= |s| ensures !OccursAt(s, sub, p) {
      if p + |sub| <= |s| {
        assert s[p..p + |sub|][0] == s[p];
      }
    }
  }

  /** Without the marker the message is read from position 7: whatever
      stands between there and the next ", " comes back as a code. */
  lemma GetPlaidErrorCodeWithoutMarker(head: string, code: string, rest: string)
    requires |head| == 7 && !Contains(code, FieldSeparator)
    requires !Contains(head + code + FieldSeparator + rest, CodeMarker)
    ensures GetPlaidErrorCode(head + code + FieldSeparator + rest) == Ok(code)
  {
    var msg := head + code + FieldSeparator + rest;
    IndexSpec(msg, CodeMarker);
    assert msg[7..] == code + FieldSeparator + rest;
    SeparatorFirstOccurrence(code, rest);
    GetPlaidErrorCodeAt(msg, 7, |code|);
    assert msg[7..7 + |code|] == code;
  }

  /** A rate-limit message with no code in it yields "ManyRequests". */
  lemma RateLimitMessageHasNoMarker(msg: string)
    requires msg == "429 TooManyRequests, retry"
    ensures msg == "429 Too" + "ManyRequests" + FieldSeparator + "retry"
    ensures !Contains(msg, CodeMarker) && !Contains("ManyRequests", FieldSeparator)
    ensures GetPlaidErrorCode(msg) == Ok("ManyRequests")
  {
    var head, code, rest := "429 Too", "ManyRequests", "retry";
    assert msg == head + code + FieldSeparator + rest;
    assert ',' !in head + code;
    assert forall p :: 0 <= p < 19 ==> msg[p] == (head + code)[p];
    NoCommaNoOccurrence(msg, CodeMarker);
    NoCommaNoOccurrence(code, FieldSeparator);
    GetPlaidErrorCodeWithoutMarker(head, code, rest);
  }

  /** The corrected reading finds the embedded code, like the original. */
  lemma ErrorCodeRoundTrip(prefix: string, code: string, rest: string)
    requires !Contains(prefix, CodeMarker) && !Contains(code, FieldSeparator)
    ensures ErrorCode(prefix + CodeMarker + code + FieldSeparator + rest) == Some(code)
  {
    var after := code + FieldSeparator + rest;
    var msg := prefix + CodeMarker + code + FieldSeparator + rest;
    assert msg == prefix + CodeMarker + after;
    MarkerFirstOccurrence(prefix, after);
    GetPlaidErrorCodeRoundTrip(prefix, code, rest);
  }

  /** The corrected reading reports no code for a message without the
      marker, where the original reads one from position 7. */
  lemma ErrorCodeNeedsMarker(msg: string)
    ensures !Contains(msg, CodeMarker) ==> ErrorCode(msg) == None
  {
    IndexSpec(msg, CodeMarker);
  }
}
