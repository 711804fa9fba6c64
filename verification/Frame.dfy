/** The frame of a coverage payload: it is accepted whole or not at all, and no payload is cut into another one. */
module Frame {
  import opened Json
  import opened Text

  const HEADER := "PROBE-COVERAGE-BEGIN "
  const FOOTER := "PROBE-COVERAGE-END\n"

  datatype Failure = NoProfile | Truncated | Polluted
  datatype Result = Ok(profile: string) | Failed(why: Failure)

  /** What the sandbox wrapper writes around a payload. */
  function Frame(body: string): string {
    HEADER + Itoa(|body|) + "\n" + body + FOOTER
  }

  /** DecodeFrame. */
  function DecodeFrame(payload: string, truncated: bool): Result {
    if truncated then Failed(Truncated)
    else match Index(payload, HEADER)
         case None => Failed(NoProfile)
         case Some(start) =>
           if !Blank(payload[..start]) then Failed(Polluted) else DecodeRest(payload[start + |HEADER|..])
  }

  function DecodeRest(rest: string): Result {
    var newline := FirstByte(rest, '\n');
    if newline == |rest| then Failed(Truncated)
    else match Atoi(rest[..newline])
         case None => Failed(Polluted)
         case Some(declared) => if declared < 1 then Failed(Polluted) else DecodeBody(rest[newline + 1..], declared)
  }

  function DecodeBody(body: string, declared: nat): Result {
    if |body| != declared + |FOOTER| || body[declared..] != FOOTER then Failed(Truncated)
    else if Index(body[..declared], HEADER).Some? then Failed(Polluted)
    else Ok(body[..declared])
  }

  /** A frame around a profile, with white space before it and its length spelled somehow. */
  ghost predicate Framed(payload: string, before: string, length: string, profile: string) {
    && payload == before + (HEADER + (length + "\n" + (profile + FOOTER)))
    && Blank(before)
    && Atoi(length) == Some(|profile|) && |profile| >= 1
    && !Contains(profile, HEADER)
  }

  lemma BodyExact(body: string, declared: nat, profile: string)
    ensures DecodeBody(body, declared) == Ok(profile)
       <==> body == profile + FOOTER && |profile| == declared && !Contains(profile, HEADER)
  {
    if DecodeBody(body, declared) == Ok(profile) {
      assert body == body[..declared] + body[declared..];
      assert Index(profile, HEADER).None?;
    }
    if body == profile + FOOTER && |profile| == declared && !Contains(profile, HEADER) {
      assert body[..declared] == profile && body[declared..] == FOOTER;
      assert Index(profile, HEADER).None?;
    }
  }

  lemma RestForwards(rest: string, profile: string) returns (length: string)
    requires DecodeRest(rest) == Ok(profile)
    ensures rest == length + "\n" + (profile + FOOTER)
    ensures Atoi(length) == Some(|profile|) && |profile| >= 1 && !Contains(profile, HEADER)
  {
    hide Atoi, DecodeBody;
    var newline := FirstByte(rest, '\n');
    length := rest[..newline];
    BodyExact(rest[newline + 1..], Atoi(length).value, profile);
    assert rest == rest[..newline] + "\n" + rest[newline + 1..];
  }

  lemma RestBackwards(rest: string, length: string, profile: string)
    requires rest == length + "\n" + (profile + FOOTER)
    requires Atoi(length) == Some(|profile|) && |profile| >= 1 && !Contains(profile, HEADER)
    ensures DecodeRest(rest) == Ok(profile)
  {
    hide DecodeBody;
    AtoiBytes(length);
    hide Atoi;
    FirstByteIs(length, '\n', profile + FOOTER);
    assert rest[..|length|] == length && rest[|length| + 1..] == profile + FOOTER;
    BodyExact(profile + FOOTER, |profile|, profile);
  }

  /** White space holds no header, not even the start of one. */
  lemma HeaderAfterBlank(before: string, rest: string)
    requires Blank(before)
    ensures Index(before + (HEADER + rest), HEADER) == Some(|before|)
  {
    hide Blank, HEADER;
    var s := before + (HEADER + rest);
    HeaderStarts();
    assert s[|before|..|before| + |HEADER|] == HEADER;
    forall j | 0 <= j < |before|
      ensures !At(s, HEADER, j)
    {
      BlankBytes(before, j);
      assert s[j] == before[j];
      AtStarts(s, HEADER, j);
    }
    IndexIs(s, HEADER, |before|);
  }

  lemma HeaderStarts()
    ensures HEADER != [] && ' ' < HEADER[0] < '\U{80}'
  {
  }

  /** Exactly the frames are accepted, and what comes out is what the frame was put around. */
  lemma DecodeExact(payload: string, profile: string)
    ensures DecodeFrame(payload, false) == Ok(profile) <==> exists before, length :: Framed(payload, before, length, profile)
    ensures DecodeFrame(payload, true) == Failed(Truncated)
  {
    hide Framed;
    if DecodeFrame(payload, false) == Ok(profile) {
      var before, length := DecodedIsFramed(payload, profile);
    }
    if before, length :| Framed(payload, before, length, profile) {
      FramedDecodes(payload, before, length, profile);
    }
  }

  lemma DecodedIsFramed(payload: string, profile: string) returns (before: string, length: string)
    requires DecodeFrame(payload, false) == Ok(profile)
    ensures Framed(payload, before, length, profile)
  {
    hide Atoi, Blank, DecodeRest, FirstByte, HEADER;
    var start := Index(payload, HEADER).value;
    var rest := payload[start + |HEADER|..];
    before := payload[..start];
    length := RestForwards(rest, profile);
    assert payload == before + (payload[start..start + |HEADER|] + rest);
  }

  lemma FramedDecodes(payload: string, before: string, length: string, profile: string)
    requires Framed(payload, before, length, profile)
    ensures DecodeFrame(payload, false) == Ok(profile)
  {
    hide Atoi, Blank, DecodeRest, FirstByte, HEADER, FOOTER;
    var rest := length + "\n" + (profile + FOOTER);
    RestBackwards(rest, length, profile);
    HeaderAfterBlank(before, rest);
    assert payload[..|before|] == before && payload[|before| + |HEADER|..] == rest;
  }

  /** Decoding inverts framing. */
  lemma FrameInverts(body: string)
    requires 1 <= |body| <= MAX_INT && !Contains(body, HEADER)
    ensures DecodeFrame(Frame(body), false) == Ok(body)
  {
    hide Blank, Atoi, DecodeFrame, Index;
    AtoiOfItoa(|body|);
    assert Blank("") by { BlankEmpty(); }
    assert Frame(body) == "" + (HEADER + (Itoa(|body|) + "\n" + (body + FOOTER)));
    assert Framed(Frame(body), "", Itoa(|body|), body);
    DecodeExact(Frame(body), body);
  }

  lemma BlankEmpty()
    ensures Blank("")
  {}

  lemma BodyRefusesLonger(body: string, more: string, declared: nat)
    requires DecodeBody(body, declared).Ok? && DecodeBody(body + more, declared).Ok?
    ensures more == []
  {}

  lemma RestRefusesLonger(rest: string, more: string)
    requires DecodeRest(rest).Ok? && DecodeRest(rest + more).Ok?
    ensures more == []
  {
    hide Atoi, DecodeBody;
    var n := FirstByte(rest, '\n');
    assert rest == rest[..n] + ['\n'] + rest[n + 1..];
    assert rest + more == rest[..n] + ['\n'] + (rest[n + 1..] + more);
    FirstByteIs(rest[..n], '\n', rest[n + 1..] + more);
    assert (rest + more)[..n] == rest[..n] && (rest + more)[n + 1..] == rest[n + 1..] + more;
    BodyRefusesLonger(rest[n + 1..], more, Atoi(rest[..n]).value);
  }

  /**
   No accepted payload is a proper prefix of another: whatever was cut off a frame or appended to
   one, what is left is refused, never read as a shorter or longer profile.
   */
  lemma NothingCutIsAccepted(payload: string, more: string)
    requires DecodeFrame(payload, false).Ok? && more != []
    ensures DecodeFrame(payload + more, false).Failed?
  {
    hide DecodeRest, Blank;
    var start := Index(payload, HEADER).value;
    var longer := payload + more;
    assert forall i :: 0 <= i <= start ==> At(longer, HEADER, i) == At(payload, HEADER, i) by {
      forall i | 0 <= i <= start
        ensures At(longer, HEADER, i) == At(payload, HEADER, i)
      {
        assert longer[i..i + |HEADER|] == payload[i..i + |HEADER|];
      }
    }
    IndexIs(longer, HEADER, start);
    assert longer[start + |HEADER|..] == payload[start + |HEADER|..] + more;
    if DecodeFrame(longer, false).Ok? {
      RestRefusesLonger(payload[start + |HEADER|..], more);
    }
  }

  /** Every proper prefix of a frame is refused. */
  lemma PrefixesAreRefused(body: string, k: nat)
    requires 1 <= |body| <= MAX_INT && !Contains(body, HEADER) && k < |Frame(body)|
    ensures DecodeFrame(Frame(body)[..k], false).Failed?
  {
    hide DecodeFrame, Frame;
    FrameInverts(body);
    var f := Frame(body);
    assert f == f[..k] + f[k..];
    if DecodeFrame(f[..k], false).Ok? {
      NothingCutIsAccepted(f[..k], f[k..]);
    }
  }
}
