/** Divergent inputs as they are shown. */
module Shown {
  import opened Utf8
  import opened Json
  import opened Text
  import opened Records
  import opened Emitter
  import opened Automaton
  import opened Validator
  import opened Divergence
  import opened Compare
  import opened EndToEnd
  import opened Credentials

  const MAX_DIVERGENCE_ROWS: nat := 32

  datatype Row = Row(test: string, key: string, base: string, candidate: string, truncated: bool)

  function RowOf(test: string, d: Divergent): Row {
    Row(test, d.base.call, d.base.display, d.candidate.display, !Whole(d.base) || !Whole(d.candidate))
  }

  /** Evaluation.Observations: a row for each of the first divergent inputs, counterexample first. */
  method Observations(test: string, divergent: seq<Divergent>) returns (rows: seq<Row>)
    ensures |rows| == if |divergent| <= MAX_DIVERGENCE_ROWS then |divergent| else MAX_DIVERGENCE_ROWS
    ensures forall k :: 0 <= k < |rows| ==> rows[k] == RowOf(test, divergent[k])
    ensures forall k :: 0 <= k < |rows| ==> rows[k].test == test && rows[k].key == divergent[k].base.call
    ensures forall k :: 0 <= k < |rows| ==> rows[k].base == divergent[k].base.display && rows[k].candidate == divergent[k].candidate.display
  {
    rows := [];
    var k := 0;
    while k < |divergent|
      invariant 0 <= k <= |divergent| && k <= MAX_DIVERGENCE_ROWS
      invariant |rows| == k && forall j :: 0 <= j < k ==> rows[j] == RowOf(test, divergent[j])
    {
      if |rows| == MAX_DIVERGENCE_ROWS {
        break;
      }
      var d := divergent[k];
      rows := rows + [Row(test, d.base.call, d.base.display, d.candidate.display, !Whole(d.base) || !Whole(d.candidate))];
      k := k + 1;
    }
  }

  // ----- what a whole display says -----

  /** Redaction leaves its marker in every text it changes. */
  ghost predicate Marks(red: Redaction) {
    forall s :: red.redact(s) != s ==> Contains(red.redact(s), MARKER)
  }

  /** The record is of this encoding. */
  predicate Tells(r: Record, red: Redaction, enc: string, limit: nat) {
    r.length == |enc| && r.display == DisplayValue(red, Cut(enc, limit), limit)
  }

  /**
   Redaction makes an encoding that fits longer than a display may be, the last character boundary
   within the bound is at the length of the encoding, and the first marker reaches past it: the
   cut leaves no whole marker, and a text as long as the encoding.
   */
  predicate Outgrows(red: Redaction, enc: string, limit: nat) {
    var s := red.redact(enc);
    && |enc| <= limit < |s| && LastBoundary(s, |enc|, limit)
    && s[..|enc|] != enc && red.fixed(Marshal(s[..|enc|]))
    && match Index(s, MARKER)
       case Some(p) => |enc| < p + |MARKER|
       case None => true
  }

  lemma MarkerHasMarker()
    ensures Index(MARKER, MARKER).Some?
  {
    assert At(MARKER, MARKER, 0);
  }

  /** A prefix shows the marker exactly when the first marker of the text ends in it. */
  lemma MarkerInPrefix(s: string, k: nat)
    requires k <= |s|
    ensures Index(s[..k], MARKER).None? <==>
            match Index(s, MARKER) case Some(p) => k < p + |MARKER| case None => true
  {
    hide MARKER;
    forall i
      ensures At(s[..k], MARKER, i) <==> At(s, MARKER, i) && i + |MARKER| <= k
    {
      if 0 <= i && i + |MARKER| <= k {
        assert s[..k][i..i + |MARKER|] == s[i..i + |MARKER|];
      }
    }
  }

  lemma WholeFits(r: Record, red: Redaction, enc: string, limit: nat)
    requires Tells(r, red, enc, limit) && Whole(r)
    ensures |enc| <= limit && r.display == Cut(red.redact(enc), limit) && red.fixed(Marshal(r.display))
  {
    hide Marshal, MARKER;
    MarkerHasMarker();
    assert Cut(enc, limit) == enc || |enc| > limit;
  }

  /**
   A display that passes for whole is the whole encoding, except exactly in that case; never, then,
   while the redacted text is within the bound.
   */
  lemma WholeExact(r: Record, red: Redaction, enc: string, limit: nat)
    requires Marks(red) && red.KeepsUtf8() && Valid(enc) && Tells(r, red, enc, limit)
    ensures Whole(r) && r.display != enc <==> !r.truncated && Outgrows(red, enc, limit)
    ensures |red.redact(enc)| <= limit && Whole(r) ==> r.display == red.redact(enc) == enc
  {
    hide Marshal, MARKER, LastBoundary, Valid;
    var s := red.redact(enc);
    if |enc| <= |s| {
      MarkerInPrefix(s, |enc|);
    }
    if limit < |s| {
      CutAtBoundary(s, limit, |enc|);
    }
    if Whole(r) && r.display != enc {
      WholeFits(r, red, enc, limit);
      assert s != enc;
    }
  }

  /** The encodings concerned are at most three bytes short of the bound, and reach it when the redacted text is ASCII. */
  lemma OutgrowsNear(red: Redaction, enc: string, limit: nat)
    requires Valid(red.redact(enc)) && Outgrows(red, enc, limit)
    ensures limit <= |enc| + 3 && (Ascii(red.redact(enc)) ==> |enc| == limit)
  {
    hide Marshal, MARKER;
    BoundaryNear(red.redact(enc), |enc|, limit);
  }

  /** The condition in ASCII text. */
  lemma WholeExactAscii(r: Record, red: Redaction, enc: string, limit: nat)
    requires Marks(red) && red.KeepsUtf8() && Valid(enc) && Tells(r, red, enc, limit) && Ascii(red.redact(enc))
    ensures var s := red.redact(enc);
            Whole(r) && r.display != enc <==>
            && !r.truncated && |enc| == limit < |s| && s[..limit] != enc && red.fixed(Marshal(s[..limit]))
            && match Index(s, MARKER) case Some(p) => limit < p + |MARKER| case None => true
  {
    hide Marshal, MARKER, Whole, Tells;
    WholeExact(r, red, enc, limit);
    if Outgrows(red, enc, limit) {
      OutgrowsNear(red, enc, limit);
    }
  }

  // ----- redaction of credentials in a URL -----

  lemma UrlRuleMarks()
    ensures Marks(UrlRule()) && UrlRule().KeepsUtf8()
  {
    hide Redacted, Contains, Valid;
    UrlRuleKeepsUtf8();
    forall s: string
      ensures UrlRule().redact(s) != s ==> Contains(UrlRule().redact(s), MARKER)
    {
      RedactedIsFixed(s);
    }
  }

  /** An address with a one-byte password between texts without a colon. */
  function Address(front: string, password: char, tail: string): (s: string)
    ensures |s| == |front| + 7 + |tail|
  {
    front + ("://a:" + [password] + "@") + tail
  }

  lemma AddressMasked(front: string, password: char, tail: string)
    requires ':' !in front && ':' !in tail && InPassword(password)
    ensures Mask(Address(front, password, tail)) == front + MARKER + tail
  {
    hide UrlAt;
    var s, n := Address(front, password, tail), |front|;
    assert IsUrl(s[n..], 1, 1);
    UrlFound(s[n..], 1, 1);
    forall k | 0 <= k < n
      ensures UrlAt(s[k..]) == 0
    {
      assert s[k..][0] == front[k];
    }
    NextUrlIs(s, 0, n);
    assert s[n + 7..] == tail && s[..n] == front;
    WithoutColon(tail);
  }

  lemma NextUrlIs(s: string, i: nat, n: nat)
    requires i <= n < |s| && UrlAt(s[n..]) > 0 && forall k :: i <= k < n ==> UrlAt(s[k..]) == 0
    ensures NextUrl(s, i) == n
    decreases n - i
  {
    hide UrlAt;
    if i < n {
      NextUrlIs(s, i + 1, n);
    }
  }

  lemma AddressRedacted(front: string, password: char, tail: string)
    requires ':' !in front && ':' !in tail && InPassword(password)
    ensures Redacted(Address(front, password, tail)) == front + MARKER + tail
  {
    hide Mask, UrlAt;
    var s, masked := Address(front, password, tail), front + MARKER + tail;
    AddressMasked(front, password, tail);
    WithoutColon(masked);
    assert s[|front|] == ':';
    assert masked[|front|] == '[';
    assert Passes(s, MAX_PASSES) == Passes(masked, MAX_PASSES - 1);
  }

  lemma FirstMarker(front: string, tail: string)
    requires '[' !in front
    ensures Index(front + MARKER + tail, MARKER) == Some(|front|)
  {
    var s := front + MARKER + tail;
    ShowsMarker(front, tail);
    forall j | 0 <= j < |front|
      ensures !At(s, MARKER, j)
    {
      AtStarts(s, MARKER, j);
      assert s[j] == front[j];
    }
    IndexIs(s, MARKER, |front|);
  }

  lemma AddressOutgrows(front: string, password: char, tail: string)
    requires Ascii(front) && Ascii(tail) && ':' !in front && ':' !in tail && '[' !in front
    requires InPassword(password) && |tail| <= 2
    ensures var enc := Address(front, password, tail); Outgrows(UrlRule(), enc, |enc|)
    ensures var enc := Address(front, password, tail); Redacted(enc)[..|enc|] == front + MARKER[..7 + |tail|]
  {
    hide Mask, UrlAt, Redacted, Valid, Index, Marshal, Fixed;
    var enc := Address(front, password, tail);
    var s := front + MARKER + tail;
    AddressRedacted(front, password, tail);
    FirstMarker(front, tail);
    var shown := s[..|enc|];
    assert shown == front + MARKER[..7 + |tail|];
    assert shown[|front|] == '[' && enc[|front|] == ':';
    MarshalColon(shown);
    WithoutColon(Marshal(shown));
    assert s[|enc|] as int < 0x80;
  }

  /**
   The case exists with the redactor's own rule, at every display bound from 7 on: addresses that
   differ in a one-byte password only, and whose redacted text is cut inside the marker.
   */
  lemma AddressesMislead(front: string, tail: string, p: char, q: char, x: Record, y: Record)
    requires Ascii(front) && Ascii(tail) && ':' !in front && ':' !in tail && '[' !in front
    requires InPassword(p) && InPassword(q) && p as int < 0x80 && q as int < 0x80 && p != q && |tail| <= 2
    requires !x.truncated && Tells(x, UrlRule(), Address(front, p, tail), |front| + 7 + |tail|)
    requires !y.truncated && Tells(y, UrlRule(), Address(front, q, tail), |front| + 7 + |tail|)
    ensures Address(front, p, tail) != Address(front, q, tail)
    ensures Whole(x) && Whole(y) && x.display == y.display == front + MARKER[..7 + |tail|]
  {
    hide Whole, Outgrows, Redacted, Marks, DisplayValue, Valid;
    assert Address(front, p, tail)[|front| + 5] == p && Address(front, q, tail)[|front| + 5] == q;
    AddressShown(front, tail, p, x);
    AddressShown(front, tail, q, y);
  }

  lemma AddressShown(front: string, tail: string, p: char, x: Record)
    requires Ascii(front) && Ascii(tail) && ':' !in front && ':' !in tail && '[' !in front
    requires InPassword(p) && p as int < 0x80 && |tail| <= 2
    requires !x.truncated && Tells(x, UrlRule(), Address(front, p, tail), |front| + 7 + |tail|)
    ensures Whole(x) && x.display == front + MARKER[..7 + |tail|]
  {
    hide Outgrows, Redacted, Marks, Valid, Marshal, Index, Address, Whole, Tells, Cut, Fixed, Ascii, MARKER;
    var enc := Address(front, p, tail);
    AddressIsAscii(front, p, tail);
    AddressOutgrows(front, p, tail);
    UrlRuleMarks();
    AsciiIsValid(enc);
    WholeExact(x, UrlRule(), enc, |enc|);
    WholeFits(x, UrlRule(), enc, |enc|);
    OutgrowsCut(UrlRule(), enc, |enc|);
  }

  lemma AddressIsAscii(front: string, p: char, tail: string)
    requires Ascii(front) && Ascii(tail) && p as int < 0x80
    ensures Ascii(Address(front, p, tail))
  {}

  /** What is shown then is the redacted text at the length of the encoding. */
  lemma OutgrowsCut(red: Redaction, enc: string, limit: nat)
    requires red.KeepsUtf8() && Valid(enc) && Outgrows(red, enc, limit)
    ensures Cut(red.redact(enc), limit) == red.redact(enc)[..|enc|]
  {
    hide Marshal, Valid, Index, LastBoundary;
    CutAtBoundary(red.redact(enc), limit, |enc|);
  }

  /**
   Values that look the same are never shown as complete: at every divergent input, if the row is
   not marked as truncated, its two displays differ, unless redaction made one of the two
   encodings outgrow the bound.
   */
  lemma RowsNeverMislead(passed: PassedIn, c: Checks, h: Harness, red: Redaction, hash: string -> string, l: Launches, f: int, d: Divergent)
    requires Proper(h) && Hashes(hash) && Marks(red) && red.KeepsUtf8() && l.Fits(h) && h.Has(f) && AllHold(c, h, red, hash, l)
    requires Evaluated(passed, c, h.Name(f), h.Planned(f)).outcome.Diverged?
    requires d in Evaluated(passed, c, h.Name(f), h.Planned(f)).divergent
    ensures 0 <= d.index < h.Planned(f)
    ensures var row, base, candidate := RowOf(h.Name(f), d), l.b1.Encoding(h, f, d.index), l.c1.Encoding(h, f, d.index);
            && (!row.truncated && row.base == row.candidate ==> Outgrows(red, base, h.display) || Outgrows(red, candidate, h.display))
            && (!row.truncated && |red.redact(base)| <= h.display && |red.redact(candidate)| <= h.display ==> row.base != row.candidate)
  {
    hide Evaluated, ViewOf, Whole, Outgrows, EndToEnd.Tells, DisplayValue, Valid;
    var test, n := h.Name(f), h.Planned(f);
    Soundness(passed, c, h, red, hash, l, f);
    DivergedMeans(passed, c, test, n);
    var s := SidesOf(passed, c, test, n);
    RecordTells(passed, c.base, FuzzBase, n, true, c.runner, h, red, hash, l.b1, f, d.index);
    RecordTells(passed, c.candidate, FuzzCandidate, n, false, c.runner, h, red, hash, l.c1, f, d.index);
    RecordOfEncoding(h, red, hash, l.b1, f, d.index, d.base);
    RecordOfEncoding(h, red, hash, l.c1, f, d.index, d.candidate);
    WholeExact(d.base, red, l.b1.Encoding(h, f, d.index), h.display);
    WholeExact(d.candidate, red, l.c1.Encoding(h, f, d.index), h.display);
    OutgrowsBeyond(red, l.b1.Encoding(h, f, d.index), h.display);
    OutgrowsBeyond(red, l.c1.Encoding(h, f, d.index), h.display);
  }

  lemma EvaluatedHead(passed: PassedIn, c: Checks, test: string, planned: int)
    ensures var ev := Evaluated(passed, c, test, planned);
            ev.divergent != [] ==>
              && ev.counterexample == Some(CounterexampleOf(ev.divergent[0]))
              && (ev.counterexampleCut <==> !Whole(ev.divergent[0].base) || !Whole(ev.divergent[0].candidate))
  {
    hide SidesOf, Consistent, TallyOf, Why, Whole, Listed;
  }

  /**
   A counterexample whose two displays are equal is marked as cut, with the same exception: the
   comment on the rule knows none.
   */
  lemma CounterexampleNeverMisleads(passed: PassedIn, c: Checks, h: Harness, red: Redaction, hash: string -> string, l: Launches, f: int)
    requires Proper(h) && Hashes(hash) && Marks(red) && red.KeepsUtf8() && l.Fits(h) && h.Has(f) && AllHold(c, h, red, hash, l)
    requires Evaluated(passed, c, h.Name(f), h.Planned(f)).outcome.Diverged?
    ensures var ev := Evaluated(passed, c, h.Name(f), h.Planned(f));
            && ev.counterexample.Some? && 0 <= ev.counterexample.value.index < h.Planned(f)
            && (ev.counterexample.value.base == ev.counterexample.value.candidate && !ev.counterexampleCut ==>
                  || Outgrows(red, l.b1.Encoding(h, f, ev.counterexample.value.index), h.display)
                  || Outgrows(red, l.c1.Encoding(h, f, ev.counterexample.value.index), h.display))
  {
    hide Evaluated, Outgrows, Whole, AllHold;
    var ev := Evaluated(passed, c, h.Name(f), h.Planned(f));
    DivergedMeans(passed, c, h.Name(f), h.Planned(f));
    EvaluatedHead(passed, c, h.Name(f), h.Planned(f));
    RowsNeverMislead(passed, c, h, red, hash, l, f, ev.divergent[0]);
  }

  lemma OutgrowsBeyond(red: Redaction, enc: string, limit: nat)
    ensures Outgrows(red, enc, limit) ==> limit < |red.redact(enc)|
  {}

  lemma RecordOfEncoding(h: Harness, red: Redaction, hash: string -> string, launch: Launch, f: int, i: nat, r: Record)
    requires launch.Fits(h) && h.Has(f) && i < h.Planned(f) && EndToEnd.Tells(h, red, hash, launch, f, i, r)
    ensures Tells(r, red, launch.Encoding(h, f, i), h.display) && Valid(launch.Encoding(h, f, i))
  {
    hide DisplayValue, Valid, Repair;
    var x := launch.first[f - 1][i];
    assert OutcomeFits(h, x);
    RepairOfValid(x.enc);
  }
}
