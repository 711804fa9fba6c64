/**
 Redaction by the rule for credentials in a URL, `://[^\s/@:]+:[^\s/@]+@`: one pass, and passes
 until nothing changes.
 */
module Credentials {
  import opened Utf8
  import opened Json
  import opened Text
  import opened Records

  const MAX_PASSES: nat := 8

  // ----- one match -----

  predicate Space(c: char) {
    c == '\t' || c == '\n' || c == '\U{c}' || c == '\r' || c == ' '
  }

  predicate InUser(c: char) {
    !Space(c) && c != '/' && c != '@' && c != ':'
  }

  predicate InPassword(c: char) {
    !Space(c) && c != '/' && c != '@'
  }

  /** The bytes at the front that satisfy p: what a greedy repetition takes. */
  function Front(s: string, p: char -> bool): (n: nat)
    ensures n <= |s| && (forall k :: 0 <= k < n ==> p(s[k])) && (n < |s| ==> !p(s[n]))
  {
    if s == [] || !p(s[0]) then 0 else 1 + Front(s[1..], p)
  }

  predicate IsUrl(s: string, user: nat, password: nat) {
    && |s| >= user + password + 5 && user > 0 && password > 0
    && s[0] == ':' && s[1] == '/' && s[2] == '/'
    && (forall k :: 3 <= k < user + 3 ==> InUser(s[k])) && s[user + 3] == ':'
    && (forall k :: user + 4 <= k < user + password + 4 ==> InPassword(s[k])) && s[user + password + 4] == '@'
  }

  /** The length of the match at the front: neither part can stop at an earlier byte, so none is tried. */
  function UrlAt(s: string): (n: nat)
    ensures n > 0 ==> n <= |s| && s[0] == ':' && s[n - 1] == '@'
    ensures n > 0 ==> exists user: nat, password: nat :: n == user + password + 5 && IsUrl(s, user, password)
  {
    if !("://" <= s) then 0 else
    var user := Front(s[3..], InUser);
    if user == 0 || user + 3 == |s| || s[user + 3] != ':' then 0 else
    var password := Front(s[user + 4..], InPassword);
    if password == 0 || user + 4 + password == |s| || s[user + 4 + password] != '@' then 0
    else
      assert IsUrl(s, user, password);
      user + password + 5
  }

  lemma FrontIs(s: string, p: char -> bool, n: nat)
    requires n < |s| && !p(s[n]) && forall k :: 0 <= k < n ==> p(s[k])
    ensures Front(s, p) == n
  {}

  /** A match is found whatever follows it. */
  lemma UrlFound(s: string, user: nat, password: nat)
    requires IsUrl(s, user, password)
    ensures UrlAt(s) == user + password + 5
  {
    FrontIs(s[3..], InUser, user);
    FrontIs(s[user + 4..], InPassword, password);
  }

  lemma UrlOfPrefix(s: string, p: string)
    requires p <= s && UrlAt(p) > 0
    ensures UrlAt(s) == UrlAt(p)
  {
    var user: nat, password: nat :| UrlAt(p) == user + password + 5 && IsUrl(p, user, password);
    assert IsUrl(s, user, password);
    UrlFound(s, user, password);
  }

  // ----- one pass -----

  /** The leftmost match at or after a position, or the length of the text. */
  function NextUrl(s: string, i: nat): (r: nat)
    requires i <= |s|
    ensures i <= r <= |s|
    ensures r < |s| ==> UrlAt(s[r..]) > 0 && s[r] == ':'
    decreases |s| - i
  {
    if i == |s| || UrlAt(s[i..]) > 0 then i else NextUrl(s, i + 1)
  }

  lemma {:induction false} NextUrlFirst(s: string, i: nat, k: nat)
    requires i <= k < |s| && UrlAt(s[k..]) > 0
    ensures NextUrl(s, i) <= k
    decreases k - i
  {
    hide UrlAt;
    if i < k && UrlAt(s[i..]) == 0 {
      NextUrlFirst(s, i + 1, k);
    }
  }

  /** One pass: every match becomes the marker. A match holds no line feed, so none follows it. */
  function Mask(s: string): string
    decreases |s|
  {
    var p := NextUrl(s, 0);
    if p == |s| then s else s[..p] + MARKER + Mask(s[p + UrlAt(s[p..])..])
  }

  predicate HasUrl(s: string) {
    NextUrl(s, 0) < |s|
  }

  /** A pass changes a text exactly when there is a match, and leaves its marker in what it changes. */
  lemma MaskMarks(s: string)
    ensures Mask(s) != s <==> HasUrl(s)
    ensures HasUrl(s) ==> Contains(Mask(s), MARKER)
  {
    hide UrlAt, NextUrl;
    var p := NextUrl(s, 0);
    if p < |s| {
      ShowsMarker(s[..p], Mask(s[p + UrlAt(s[p..])..]));
      assert Mask(s)[p] == '[';
    }
  }

  lemma ShowsMarker(a: string, b: string)
    ensures At(a + MARKER + b, MARKER, |a|) && (a + MARKER + b)[|a|] == '['
  {
    assert (a + MARKER + b)[|a|..|a| + |MARKER|] == MARKER;
  }

  lemma AfterAscii(s: string, k: nat)
    requires Valid(s) && k < |s| && s[k] as int < 0x80
    ensures Valid(s[..k]) && Valid(s[k..]) && Valid(s[k + 1..])
  {
    ValidPrefix(s, k);
    ValidConcat(s[..k], s[k..]);
    assert s == s[..k] + s[k..];
    assert s[k..][1..] == s[k + 1..];
  }

  lemma MarkedIsValid(a: string, b: string)
    requires Valid(a) && Valid(b)
    ensures Valid(a + MARKER + b)
  {
    hide Valid;
    AsciiIsValid(MARKER);
    ValidConcat(a, MARKER);
    ValidConcat(a + MARKER, b);
  }

  lemma SplitIsValid(s: string, p: nat, n: nat)
    requires Valid(s) && p < |s| && n > 0 && n == UrlAt(s[p..])
    ensures p + n <= |s| && Valid(s[..p]) && Valid(s[p + n..])
  {
    hide Valid, UrlAt;
    assert s[p..][n - 1] == s[p + n - 1] && s[p..][0] == s[p];
    AfterAscii(s, p);
    AfterAscii(s, p + n - 1);
  }

  lemma {:induction false} MaskIsValid(s: string)
    requires Valid(s)
    ensures Valid(Mask(s))
    decreases |s|
  {
    hide Valid, UrlAt, NextUrl;
    var p := NextUrl(s, 0);
    if p < |s| {
      var n := UrlAt(s[p..]);
      SplitIsValid(s, p, n);
      MaskIsValid(s[p + n..]);
      MarkedIsValid(s[..p], Mask(s[p + n..]));
    }
  }

  // ----- where a match can lie -----

  lemma HasUrlIff(s: string)
    ensures HasUrl(s) <==> exists i: nat, user: nat, password: nat :: i < |s| && IsUrl(s[i..], user, password)
  {
    hide UrlAt, IsUrl;
    var p := NextUrl(s, 0);
    if p < |s| {
      var user: nat, password: nat :| UrlAt(s[p..]) == user + password + 5 && IsUrl(s[p..], user, password);
    }
    if exists i: nat, user: nat, password: nat :: i < |s| && IsUrl(s[i..], user, password) {
      var i: nat, user: nat, password: nat :| i < |s| && IsUrl(s[i..], user, password);
      UrlFound(s[i..], user, password);
      NextUrlFirst(s, 0, i);
    }
  }

  /** A match holds no white space: it lies on one side of any. */
  lemma UrlBesideSpace(a: string, c: char, b: string)
    requires Space(c)
    ensures HasUrl(a + [c] + b) <==> HasUrl(a) || HasUrl(b)
  {
    hide HasUrl;
    var s := a + [c] + b;
    HasUrlIff(s);
    HasUrlIff(a);
    HasUrlIff(b);
    forall i: nat, user: nat, password: nat | i < |s| && IsUrl(s[i..], user, password)
      ensures HasUrl(a) || HasUrl(b)
    {
      UrlOnOneSide(a, c, b, i, user, password);
    }
    if HasUrl(a) {
      var i: nat, user: nat, password: nat :| i < |a| && IsUrl(a[i..], user, password);
      assert s[i..] == a[i..] + [c] + b;
      assert IsUrl(s[i..], user, password);
    }
    if HasUrl(b) {
      var i: nat, user: nat, password: nat :| i < |b| && IsUrl(b[i..], user, password);
      assert s[|a| + 1 + i..] == b[i..];
    }
  }

  lemma UrlBytes(s: string, user: nat, password: nat, k: nat)
    requires IsUrl(s, user, password) && k < user + password + 5
    ensures !Space(s[k]) && s[user + password + 4] == '@' && s[1] == '/'
  {}

  lemma UrlOnOneSide(a: string, c: char, b: string, i: nat, user: nat, password: nat)
    requires Space(c) && i < |a| + 1 + |b| && IsUrl((a + [c] + b)[i..], user, password)
    ensures HasUrl(a) || HasUrl(b)
  {
    hide HasUrl, IsUrl;
    var s := a + [c] + b;
    HasUrlIff(a);
    HasUrlIff(b);
    if i <= |a| {
      assert s[i..][|a| - i] == c;
      if |a| - i < user + password + 5 {
        UrlBytes(s[i..], user, password, |a| - i);
      }
      assert s == a + ([c] + b);
      UrlOfFront(a, [c] + b, i, user, password);
    } else {
      assert s[i..] == b[i - |a| - 1..];
    }
  }

  lemma UrlOfFront(a: string, b: string, i: nat, user: nat, password: nat)
    requires i + user + password + 5 <= |a| && IsUrl((a + b)[i..], user, password)
    ensures IsUrl(a[i..], user, password)
  {
    assert forall k :: 0 <= k < |a| - i ==> (a + b)[i..][k] == a[i..][k];
  }

  /** A match ends with `@`. */
  lemma UrlBefore(a: string, c: char)
    requires c != '@'
    ensures HasUrl(a + [c]) <==> HasUrl(a)
  {
    hide HasUrl, IsUrl;
    var s := a + [c];
    HasUrlIff(s);
    HasUrlIff(a);
    forall i: nat, user: nat, password: nat | i < |s| && IsUrl(s[i..], user, password)
      ensures HasUrl(a)
    {
      UrlBytes(s[i..], user, password, 0);
      UrlLength(s[i..], user, password);
      assert s[i..][user + password + 4] == s[i + user + password + 4];
      UrlOfFront(a, [c], i, user, password);
    }
    forall i: nat, user: nat, password: nat | i < |a| && IsUrl(a[i..], user, password)
      ensures HasUrl(s)
    {
      UrlGrows(a, [c], i, user, password);
    }
  }

  lemma UrlLength(s: string, user: nat, password: nat)
    requires IsUrl(s, user, password)
    ensures |s| >= user + password + 5
  {}

  lemma UrlGrows(a: string, b: string, i: nat, user: nat, password: nat)
    requires i < |a| && IsUrl(a[i..], user, password)
    ensures i < |a + b| && IsUrl((a + b)[i..], user, password)
  {
    assert (a + b)[i..] == a[i..] + b;
  }

  lemma WithoutSlash(s: string)
    requires '/' !in s
    ensures !HasUrl(s)
  {
    hide HasUrl, IsUrl;
    HasUrlIff(s);
    forall i: nat, user: nat, password: nat | i < |s|
      ensures !IsUrl(s[i..], user, password)
    {
      if IsUrl(s[i..], user, password) {
        UrlHasSlash(s, i, user, password);
      }
    }
  }

  lemma UrlHasSlash(s: string, i: nat, user: nat, password: nat)
    requires i < |s| && IsUrl(s[i..], user, password)
    ensures '/' in s
  {
    assert s[i..][1] == s[i + 1];
  }

  // ----- passes -----

  function LineFeeds(s: string): string {
    if s == [] then [] else (if s[0] == '\n' then "\n" else "") + LineFeeds(s[1..])
  }

  /** What at most n + 1 passes leave; when the last one still changes the text, the marker in place of all of it. */
  function Passes(s: string, n: nat): string
    decreases n
  {
    if Mask(s) == s then s
    else if n == 0 then MARKER + LineFeeds(Mask(s))
    else Passes(Mask(s), n - 1)
  }

  function Redacted(s: string): string {
    Passes(s, MAX_PASSES)
  }

  /** Redact, with this one rule. */
  method Redact(text: string) returns (s: string)
    ensures s == Redacted(text)
  {
    hide Mask;
    s := text;
    var i := 0;
    while i <= MAX_PASSES
      invariant 0 <= i <= MAX_PASSES + 1
      invariant Redacted(text) == if i <= MAX_PASSES then Passes(s, MAX_PASSES - i) else MARKER + LineFeeds(s)
    {
      var next := Mask(s);
      if next == s {
        return;
      }
      s, i := next, i + 1;
    }
    s := MARKER + LineFeeds(s);
  }

  /** IsFixedPoint. */
  predicate Fixed(s: string) {
    Mask(s) == s
  }

  lemma LineFeedsOnly(s: string)
    ensures forall k :: 0 <= k < |LineFeeds(s)| ==> LineFeeds(s)[k] == '\n'
  {}

  lemma WithoutColon(s: string)
    requires ':' !in s
    ensures Fixed(s)
  {
    hide UrlAt, Mask;
    MaskMarks(s);
  }

  /** The fallback is a fixed point that shows the marker. */
  lemma FallbackIsFixed(s: string)
    ensures Fixed(MARKER + LineFeeds(s)) && Contains(MARKER + LineFeeds(s), MARKER) && Ascii(MARKER + LineFeeds(s))
  {
    hide LineFeeds, UrlAt, Mask, At;
    LineFeedsOnly(s);
    var feeds := LineFeeds(s);
    MarkerThenFeeds(feeds);
    WithoutColon(MARKER + feeds);
    ShowsMarker("", feeds);
    assert "" + MARKER + feeds == MARKER + feeds;
  }

  lemma MarkerThenFeeds(feeds: string)
    requires forall k :: 0 <= k < |feeds| ==> feeds[k] == '\n'
    ensures ':' !in MARKER + feeds && Ascii(MARKER + feeds)
  {
    assert ':' !in MARKER && ':' !in feeds;
  }

  lemma {:induction false} PassesFixed(s: string, n: nat)
    ensures Fixed(Passes(s, n))
    ensures Passes(s, n) != s ==> Contains(Passes(s, n), MARKER)
    ensures Valid(s) ==> Valid(Passes(s, n))
    decreases n
  {
    hide Mask, Contains, Valid;
    MaskMarks(s);
    if Valid(s) {
      MaskIsValid(s);
    }
    FallbackIsFixed(Mask(s));
    AsciiIsValid(MARKER + LineFeeds(Mask(s)));
    if n > 0 {
      PassesFixed(Mask(s), n - 1);
    }
  }

  /**
   Redaction gives a fixed point, and leaves exactly the fixed points as they are, so that one
   pass decides whether it would change a text; what it changes shows the marker.
   */
  lemma RedactedIsFixed(s: string)
    ensures Fixed(Redacted(s)) && (Fixed(s) <==> Redacted(s) == s)
    ensures Redacted(s) != s ==> Contains(Redacted(s), MARKER)
    ensures Valid(s) ==> Valid(Redacted(s))
  {
    hide Mask, Contains, Valid;
    PassesFixed(s, MAX_PASSES);
  }

  /** A cut of a fixed point is a fixed point. */
  lemma CutKeepsFixed(s: string, p: string)
    requires Fixed(s) && p <= s
    ensures Fixed(p)
  {
    hide UrlAt, Mask;
    MaskMarks(s);
    MaskMarks(p);
    var k := NextUrl(p, 0);
    if k < |p| {
      UrlOfPrefix(s[k..], p[k..]);
      NextUrlFirst(s, 0, k);
    }
  }

  /** Redaction by the rule for credentials in a URL. */
  function UrlRule(): Redaction {
    Redaction(s => Redacted(s), s => Fixed(s))
  }

  lemma UrlRuleKeepsUtf8()
    ensures UrlRule().KeepsUtf8()
  {
    hide Redacted, Contains, Valid;
    forall s: string
      ensures Valid(s) ==> Valid(UrlRule().redact(s))
    {
      RedactedIsFixed(s);
    }
  }

  lemma MarshalTextColon(s: string)
    requires ':' !in s
    ensures ':' !in MarshalText(s)
  {}

  lemma MarshalColon(s: string)
    requires ':' !in s
    ensures ':' !in Marshal(s)
  {
    MarshalTextColon(s);
  }

  // ----- the number of passes -----

  function Ats(s: string): nat {
    if s == [] then 0 else (if s[0] == '@' then 1 else 0) + Ats(s[1..])
  }

  lemma {:induction false} AtsOfConcat(a: string, b: string)
    ensures Ats(a + b) == Ats(a) + Ats(b)
    decreases |a|
  {
    if a == [] {
      assert a + b == b;
    } else {
      assert (a + b)[1..] == a[1..] + b;
      AtsOfConcat(a[1..], b);
    }
  }

  lemma {:induction false} SomeAt(s: string, k: nat)
    requires k < |s| && s[k] == '@'
    ensures Ats(s) > 0
    decreases k
  {
    if k > 0 {
      SomeAt(s[1..], k - 1);
    }
  }

  /** A pass that changes the text takes an `@` away that no marker puts back. */
  lemma {:induction false} MaskShrinks(s: string)
    ensures Ats(Mask(s)) <= Ats(s) && (HasUrl(s) ==> Ats(Mask(s)) < Ats(s))
    decreases |s|
  {
    hide UrlAt, Ats, NextUrl;
    var p := NextUrl(s, 0);
    if p < |s| {
      var n := UrlAt(s[p..]);
      var taken, rest := s[p..p + n], s[p + n..];
      assert s == s[..p] + taken + rest && taken[n - 1] == '@';
      MaskShrinks(rest);
      MarkerShrinks(s[..p], taken, rest, Mask(rest));
    }
  }

  lemma MarkerShrinks(a: string, taken: string, b: string, c: string)
    requires taken != [] && taken[|taken| - 1] == '@' && Ats(c) <= Ats(b)
    ensures Ats(a + MARKER + c) < Ats(a + taken + b)
  {
    hide Ats;
    SomeAt(taken, |taken| - 1);
    AtsOfConcat(a + taken, b);
    AtsOfConcat(a, taken);
    AtsOfConcat(a + MARKER, c);
    AtsOfConcat(a, MARKER);
    AtsOfMarker();
  }

  lemma {:induction false} AtsOfNone(s: string)
    requires '@' !in s
    ensures Ats(s) == 0
    decreases |s|
  {
    if s != [] {
      AtsOfNone(s[1..]);
    }
  }

  lemma AtsOfMarker()
    ensures Ats(MARKER) == 0
  {
    AtsOfNone(MARKER);
  }

  /** Enough passes for the `@`s of the text: more passes change nothing, and the fallback is not reached. */
  lemma {:induction false} PassesReach(s: string, n: nat, more: nat)
    requires Ats(s) <= n <= more
    ensures Passes(s, more) == Passes(s, n) && Ats(Passes(s, n)) <= Ats(s)
    decreases n
  {
    hide Mask, Ats, HasUrl, Contains;
    MaskMarks(s);
    MaskShrinks(s);
    if Mask(s) != s {
      PassesReach(Mask(s), n - 1, more - 1);
    }
  }
}
