/**
 * The per-headline sentiment widget: it asks for an analysis of the
 * headline for the first stock it was given, cuts the reply into four
 * numbered sections with four fixed regular expressions, and commits either
 * the parsed report or a neutral fallback, at most once and never after its
 * cleanup has run.
 */
module SentimentTag {
  import opened Wrappers
  import opened Text
  import AnalyzeSentiment
  import Client

  // ---------------------------------------------------------------------
  // Section parsing: `text.match(/k\..*?:([\s\S]*?)(k+1)\./)?.[1]?.trim()`
  // for k = 1, 2, 3, and `text.match(/4\..*?:([\s\S]*)$/)?.[1]?.trim()`.
  // ---------------------------------------------------------------------

  /** The marker of section `k`: its digit followed by a full stop. */
  function Marker(k: nat): (m: string)
    requires 1 <= k <= 5
    ensures |m| == 2 && m[1] == '.' && '1' <= m[0] <= '5'
  {
    [('0' as int + k) as char, '.']
  }

  /** No line terminator in `s[from..to]`: what `.*?` can run over. */
  predicate LineClear(s: string, from: nat, to: nat)
    requires from <= to <= |s|
  {
    forall j :: from <= j < to ==> !IsLineTerminator(s[j])
  }

  /**
   * One way the expression for section `k` can match: the marker at `p`, a
   * colon at `c` on the same line, and the captured group `s[c+1..q]`
   * ending where the next marker starts at `q` (or, for section 4, at the
   * end of the text).
   */
  predicate Candidate(s: string, k: nat, p: nat, c: nat, q: nat)
    requires 1 <= k <= 4
  {
    && OccursAt(s, Marker(k), p)
    && p + 2 <= c < |s| && s[c] == ':' && LineClear(s, p + 2, c)
    && if k < 4 then c + 1 <= q && OccursAt(s, Marker(k + 1), q) else q == |s|
  }

  /** `(p, c, q)` comes no later than `(p', c', q')` in the order the engine tries them. */
  predicate NoLater(p: nat, c: nat, q: nat, p': nat, c': nat, q': nat) {
    p < p' || (p == p' && (c < c' || (c == c' && q <= q')))
  }

  /**
   * The match `String.prototype.match` reports: the candidate with the
   * leftmost start, then the earliest colon (`.*?` is lazy), then the
   * earliest end (`[\s\S]*?` is lazy).
   */
  ghost predicate Selected(s: string, k: nat, p: nat, c: nat, q: nat)
    requires 1 <= k <= 4
  {
    && Candidate(s, k, p, c, q)
    && forall p', c', q' :: Candidate(s, k, p', c', q') ==> NoLater(p, c, q, p', c', q')
  }

  /** The first occurrence of `t` in `s` at or after `from`. */
  function FindFrom(s: string, t: string, from: nat): (r: Option<nat>)
    ensures r.Some? ==> from <= r.value && OccursAt(s, t, r.value)
    ensures forall j: nat :: from <= j && (r.None? || j < r.value) ==> !OccursAt(s, t, j)
    decreases |s| - from
  {
    if from + |t| > |s| then None
    else if OccursAt(s, t, from) then Some(from)
    else FindFrom(s, t, from + 1)
  }

  /** The first colon at or after `from` that comes before the end of the line. */
  function ColonOnLine(s: string, from: nat): (r: Option<nat>)
    requires from <= |s|
    ensures r.Some? ==> from <= r.value < |s| && s[r.value] == ':' && LineClear(s, from, r.value)
    ensures r.Some? ==> forall j :: from <= j < r.value ==> s[j] != ':'
    ensures r.None? ==> forall c :: from <= c < |s| && s[c] == ':' ==> !LineClear(s, from, c)
    decreases |s| - from
  {
    if from == |s| then None
    else if s[from] == ':' then Some(from)
    else if IsLineTerminator(s[from]) then None
    else
      ColonOnLine(s, from + 1)
  }

  /** The match that starts at the marker at `p`, if the rest of the expression can follow it. */
  function MatchAt(s: string, k: nat, p: nat): (r: Option<(nat, nat)>)
    requires 1 <= k <= 4 && OccursAt(s, Marker(k), p)
    ensures r.Some? ==> Candidate(s, k, p, r.value.0, r.value.1)
  {
    match ColonOnLine(s, p + 2)
    case None => None
    case Some(c) =>
      if k == 4 then Some((c, |s|))
      else
        match FindFrom(s, Marker(k + 1), c + 1)
        case None => None
        case Some(q) => Some((c, q))
  }

  /** The leftmost marker at or after `from` at which the expression matches, with its match. */
  function SearchFrom(s: string, k: nat, from: nat): (r: Option<(nat, nat, nat)>)
    requires 1 <= k <= 4
    ensures r.Some? ==> from <= r.value.0 && Candidate(s, k, r.value.0, r.value.1, r.value.2)
    decreases |s| - from
  {
    match FindFrom(s, Marker(k), from)
    case None => None
    case Some(p) =>
      match MatchAt(s, k, p)
      case Some((c, q)) => Some((p, c, q))
      case None => SearchFrom(s, k, p + 1)
  }

  /** The captured group of the expression for section `k`, or `None` when it does not match. */
  function Capture(s: string, k: nat): Option<string>
    requires 1 <= k <= 4
  {
    match SearchFrom(s, k, 0)
    case None => None
    case Some((p, c, q)) => Some(s[c + 1..q])
  }

  /** At a given start, every other way to match uses a later colon, or the same colon and a later end. */
  lemma MatchAtLeast(s: string, k: nat, p: nat, c': nat, q': nat)
    requires 1 <= k <= 4 && Candidate(s, k, p, c', q')
    ensures MatchAt(s, k, p).Some?
    ensures NoLater(p, MatchAt(s, k, p).value.0, MatchAt(s, k, p).value.1, p, c', q')
  {
    var colon := ColonOnLine(s, p + 2);
    assert colon.Some?;
    var c := colon.value;
    assert c <= c';
    if k < 4 {
      var next := FindFrom(s, Marker(k + 1), c + 1);
      assert OccursAt(s, Marker(k + 1), q');
      assert next.Some? && next.value <= q';
    }
  }

  /** The search finds a match exactly when some marker at or after `from` has one, and the first in engine order. */
  lemma {:induction false} SearchFromLeast(s: string, k: nat, from: nat, p': nat, c': nat, q': nat)
    requires 1 <= k <= 4 && from <= p' && Candidate(s, k, p', c', q')
    ensures SearchFrom(s, k, from).Some?
    ensures var r := SearchFrom(s, k, from).value; NoLater(r.0, r.1, r.2, p', c', q')
    decreases |s| - from
  {
    assert OccursAt(s, Marker(k), p');
    var found := FindFrom(s, Marker(k), from);
    assert found.Some? && found.value <= p';
    var p := found.value;
    if p == p' {
      MatchAtLeast(s, k, p, c', q');
      var m := MatchAt(s, k, p).value;
      assert SearchFrom(s, k, from) == Some((p, m.0, m.1));
    } else {
      match MatchAt(s, k, p)
      case Some(m) =>
        assert SearchFrom(s, k, from) == Some((p, m.0, m.1));
      case None =>
        assert SearchFrom(s, k, from) == SearchFrom(s, k, p + 1);
        SearchFromLeast(s, k, p + 1, p', c', q');
    }
  }

  /** The search's result is the selected match, and there is one whenever any candidate exists. */
  lemma SearchSelects(s: string, k: nat)
    requires 1 <= k <= 4
    ensures (exists p: nat, c: nat, q: nat :: Candidate(s, k, p, c, q)) ==> SearchFrom(s, k, 0).Some?
    ensures var r := SearchFrom(s, k, 0); r.Some? ==> Selected(s, k, r.value.0, r.value.1, r.value.2)
  {
    var r := SearchFrom(s, k, 0);
    if exists p: nat, c: nat, q: nat :: Candidate(s, k, p, c, q) {
      var p', c', q' :| Candidate(s, k, p', c', q');
      SearchFromLeast(s, k, 0, p', c', q');
    }
    if r.Some? {
      var (p, c, q) := r.value;
      forall p2: nat, c2: nat, q2: nat | Candidate(s, k, p2, c2, q2)
        ensures NoLater(p, c, q, p2, c2, q2)
      {
        SearchFromLeast(s, k, 0, p2, c2, q2);
      }
    }
  }

  /**
   * The captured group is present exactly when the expression can match,
   * and then it is the text between the colon and the end of the match the
   * engine selects.
   */
  lemma CaptureSpec(s: string, k: nat)
    requires 1 <= k <= 4
    ensures Capture(s, k).Some? <==> exists p: nat, c: nat, q: nat :: Candidate(s, k, p, c, q)
    ensures Capture(s, k).Some? ==>
      exists p: nat, c: nat, q: nat :: Selected(s, k, p, c, q) && Capture(s, k).value == s[c + 1..q]
  {
    SearchSelects(s, k);
    var r := SearchFrom(s, k, 0);
    if r.Some? {
      var (p, c, q) := r.value;
      assert Selected(s, k, p, c, q) && Capture(s, k).value == s[c + 1..q];
    }
  }

  /** A section label: no colon and no line break, so the first colon after the marker ends it. */
  predicate IsLabel(x: string) {
    forall j :: 0 <= j < |x| ==> x[j] != ':' && !IsLineTerminator(x[j])
  }

  /** No occurrence of the marker of section `m` starts in `s` at an index from `lo` up to `hi`. */
  predicate NoMarkerIn(s: string, m: nat, lo: nat, hi: nat)
    requires 1 <= m <= 5
  {
    forall j: nat :: lo <= j < hi ==> !OccursAt(s, Marker(m), j)
  }

  /**
   * A candidate that nothing can precede: no earlier occurrence of its
   * marker, no colon between its marker and its colon, and (for sections 1
   * to 3) no occurrence of the next marker between its colon and its end.
   */
  predicate Unpreceded(s: string, k: nat, p: nat, c: nat, q: nat)
    requires 1 <= k <= 4
  {
    && Candidate(s, k, p, c, q)
    && NoMarkerIn(s, k, 0, p)
    && (forall j :: p + 2 <= j < c ==> s[j] != ':')
    && (k < 4 ==> NoMarkerIn(s, k + 1, c + 1, q))
  }

  /** The capture of a candidate that nothing can precede is its colon-to-end slice. */
  lemma {:induction false} CaptureByLayout(s: string, k: nat, p: nat, c: nat, q: nat)
    requires 1 <= k <= 4 && Unpreceded(s, k, p, c, q)
    ensures Capture(s, k) == Some(s[c + 1..q])
  {
    SearchFromLeast(s, k, 0, p, c, q);
    var r := SearchFrom(s, k, 0).value;
    assert Candidate(s, k, r.0, r.1, r.2);
    assert r == (p, c, q);
  }

  /** An occurrence inside `s[lo..hi]` is an occurrence in the slice, shifted by `lo`. */
  lemma {:induction false} OccursInSlice(s: string, t: string, lo: nat, hi: nat, j: nat)
    requires lo <= j && j + |t| <= hi <= |s|
    ensures OccursAt(s, t, j) == OccursAt(s[lo..hi], t, j - lo)
  {
    var inner, outer := s[lo..hi][j - lo..j - lo + |t|], s[j..j + |t|];
    assert forall i :: 0 <= i < |t| ==> inner[i] == outer[i];
    assert inner == outer;
  }

  /**
   * A marker starting inside `s[lo..hi]` lies in that slice, unless it
   * straddles its end: so when the slice has no such marker and no marker
   * straddles its end, none starts in the range.
   */
  lemma {:induction false} MarkerInside(s: string, m: nat, lo: nat, hi: nat)
    requires 1 <= m <= 5 && lo <= hi <= |s| && !Contains(s[lo..hi], Marker(m))
    requires lo < hi < |s| ==> s[hi - 1] != Marker(m)[0] || s[hi] != '.'
    ensures NoMarkerIn(s, m, lo, hi)
  {
    forall j: nat | lo <= j < hi
      ensures !OccursAt(s, Marker(m), j)
    {
      if j + 2 <= hi {
        OccursInSlice(s, Marker(m), lo, hi, j);
        assert !OccursAt(s[lo..hi], Marker(m), j - lo);
      } else if j + 2 <= |s| {
        assert s[j..j + 2][0] == s[hi - 1] && s[j..j + 2][1] == s[hi];
      }
    }
  }

  /** Joining two texts without a marker gives none, unless the join itself spells it. */
  lemma {:induction false} NoMarkerAppend(a: string, b: string, m: nat)
    requires 1 <= m <= 5 && !Contains(a, Marker(m)) && !Contains(b, Marker(m))
    requires a == [] || b == [] || a[|a| - 1] != Marker(m)[0] || b[0] != '.'
    ensures !Contains(a + b, Marker(m))
  {
    var s := a + b;
    assert s[0..|a|] == a && s[|a|..|s|] == b;
    MarkerInside(s, m, 0, |a|);
    MarkerInside(s, m, |a|, |s|);
  }

  /** One numbered section as the model is asked to write it: the marker, a label, a colon and the body. */
  function Section(k: nat, name: string, body: string): string
    requires 1 <= k <= 4
  {
    Marker(k) + name + ":" + body
  }

  /** Where the marker, the label, the colon and the body of a section sit in the text around it. */
  lemma {:induction false} SectionSlices(s: string, pre: string, k: nat, name: string, body: string, post: string)
    requires 1 <= k <= 4 && s == pre + Section(k, name, body) + post
    ensures var p := |pre|; var c := p + 2 + |name|; var q := c + 1 + |body|;
      && |s| == q + |post| && s[0..p] == pre && s[p..p + 2] == Marker(k) && s[p + 2..c] == name
      && s[c] == ':' && s[c + 1..q] == body && s[q..] == post
  {
    assert s == pre + Marker(k) + name + ":" + body + post;
  }

  /**
   * A section preceded by text without its marker and followed by the next
   * marker (or by nothing, for section 4) is a candidate that nothing can
   * precede, provided the body does not contain the next marker.
   */
  lemma {:induction false} SectionLayout(s: string, k: nat, p: nat, c: nat, q: nat, pre: string, name: string, body: string, post: string)
    requires 1 <= k <= 4 && p == |pre| && c == p + 2 + |name| && q == c + 1 + |body| && |s| == q + |post|
    requires s[0..p] == pre && s[p..p + 2] == Marker(k) && s[p + 2..c] == name && s[c] == ':' && s[q..] == post
    requires !Contains(pre, Marker(k)) && IsLabel(name)
    requires k < 4 ==> !Contains(body, Marker(k + 1)) && StartsWith(post, Marker(k + 1))
    requires k == 4 ==> post == []
    requires s[c + 1..q] == body
    ensures Unpreceded(s, k, p, c, q)
  {
    assert s[p] == s[p..p + 2][0] == Marker(k)[0];
    MarkerInside(s, k, 0, p);
    if k < 4 {
      assert s[q..q + 2] == post[..2];
      assert s[q] == Marker(k + 1)[0];
      MarkerInside(s, k + 1, c + 1, q);
    }
    assert forall j :: p + 2 <= j < c ==> s[j] == name[j - p - 2];
  }

  /**
   * A section preceded by text without its marker and followed by the next
   * marker (or by nothing, for section 4) yields its body as the capture,
   * provided the body does not contain the next marker.
   */
  lemma {:induction false} SectionCaptured(s: string, pre: string, k: nat, name: string, body: string, post: string)
    requires 1 <= k <= 4 && s == pre + Section(k, name, body) + post
    requires !Contains(pre, Marker(k)) && IsLabel(name)
    requires k < 4 ==> !Contains(body, Marker(k + 1)) && StartsWith(post, Marker(k + 1))
    requires k == 4 ==> post == []
    ensures Capture(s, k) == Some(body)
  {
    var p := |pre|;
    var c := p + 2 + |name|;
    var q := c + 1 + |body|;
    SectionSlices(s, pre, k, name, body, post);
    SectionLayout(s, k, p, c, q, pre, name, body, post);
    CaptureByLayout(s, k, p, c, q);
  }

  /** The trimmed field for section `k`; `undefined` when the expression does not match. */
  function Field(s: string, k: nat): Option<string>
    requires 1 <= k <= 4
  {
    match Capture(s, k)
    case None => None
    case Some(group) => Some(Trim(group))
  }

  /** The four fields the widget shows. */
  datatype Report = Report(summary: Option<string>, advice: Option<string>, outlook: Option<string>, sentiment: Option<string>)

  /** The model's reply cut into its four sections. */
  function Parse(text: string): Report {
    Report(Field(text, 1), Field(text, 2), Field(text, 3), Field(text, 4))
  }

  /** No marker of a section after section `k` occurs in `x`. */
  predicate NoLaterMarker(x: string, k: nat) {
    forall m :: k < m <= 4 ==> !Contains(x, Marker(m))
  }

  /** None of the four marker digits occurs in `x`. */
  predicate NoMarkerDigit(x: string) {
    forall j :: 0 <= j < |x| ==> !('1' <= x[j] <= '4')
  }

  /** A text without the digits 1 to 4 holds no marker at all. */
  lemma NoMarkerDigitClear(x: string, k: nat)
    requires NoMarkerDigit(x)
    ensures NoLaterMarker(x, k)
  {
    forall m | k < m <= 4
      ensures !Contains(x, Marker(m))
    {
      NotContainsFirst(x, Marker(m));
    }
  }

  /** A section whose label and body hold no later marker holds none either: its own marker, colon and joins spell none. */
  lemma {:induction false} SectionNoLaterMarker(k: nat, name: string, body: string)
    requires 1 <= k <= 4 && NoLaterMarker(name, k) && NoLaterMarker(body, k)
    ensures NoLaterMarker(Section(k, name, body), k)
  {
    forall m | k < m <= 4
      ensures !Contains(Section(k, name, body), Marker(m))
    {
      assert Marker(k)[0] != Marker(m)[0];
      assert !OccursAt(Marker(k), Marker(m), 0);
      NoMarkerAppend(Marker(k), name, m);
      var head := Marker(k) + name;
      NoMarkerAppend(head, ":", m);
      var labelled := head + ":";
      assert labelled[|labelled| - 1] == ':';
      NoMarkerAppend(labelled, body, m);
    }
  }

  /** The field of a section captured as above is its body, trimmed. */
  lemma FieldOfSection(whole: string, pre: string, k: nat, name: string, body: string, post: string)
    requires 1 <= k <= 4 && whole == pre + Section(k, name, body) + post
    requires !Contains(pre, Marker(k)) && IsLabel(name)
    requires k < 4 ==> !Contains(body, Marker(k + 1)) && StartsWith(post, Marker(k + 1))
    requires k == 4 ==> post == []
    ensures Field(whole, k) == Some(Trim(body))
  {
    SectionCaptured(whole, pre, k, name, body, post);
  }

  lemma SectionStarts(k: nat, name: string, body: string, rest: string)
    requires 1 <= k <= 4
    ensures StartsWith(Section(k, name, body) + rest, Marker(k))
    ensures Section(k, name, body)[0] == Marker(k)[0]
  {
    assert (Section(k, name, body) + rest)[..2] == Marker(k);
  }

  /** The sections before section `k` do not contain its marker. */
  lemma EarlierSectionsClear(n1: string, b1: string, n2: string, b2: string, n3: string, b3: string)
    requires NoLaterMarker(n1, 1) && NoLaterMarker(b1, 1) && NoLaterMarker(n2, 2) && NoLaterMarker(b2, 2)
    requires NoLaterMarker(n3, 3) && NoLaterMarker(b3, 3)
    ensures !Contains(Section(1, n1, b1), Marker(2))
    ensures !Contains(Section(1, n1, b1) + Section(2, n2, b2), Marker(3))
    ensures !Contains(Section(1, n1, b1) + Section(2, n2, b2) + Section(3, n3, b3), Marker(4))
  {
    var s1, s2, s3 := Section(1, n1, b1), Section(2, n2, b2), Section(3, n3, b3);
    SectionNoLaterMarker(1, n1, b1);
    SectionNoLaterMarker(2, n2, b2);
    SectionNoLaterMarker(3, n3, b3);
    SectionStarts(2, n2, b2, []);
    SectionStarts(3, n3, b3, []);
    NoMarkerAppend(s1, s2, 3);
    NoMarkerAppend(s1, s2, 4);
    NoMarkerAppend(s1 + s2, s3, 4);
  }

  /**
   * Only helps the solver: the ways the four-section reply is cut around
   * each section.
   */
  lemma Regroup(s1: string, s2: string, s3: string, s4: string)
    ensures s1 + s2 + s3 + s4 == [] + s1 + (s2 + s3 + s4)
    ensures s1 + s2 + s3 + s4 == s1 + s2 + (s3 + s4)
    ensures s1 + s2 + s3 + s4 == s1 + s2 + s3 + s4 + []
  {
    assert s1 + s2 + s3 + s4 == s1 + (s2 + s3 + s4);
  }

  /**
   * A reply laid out as the prompt asks ("1. <label>: <text> 2. ..."), with
   * labels free of colons and line breaks, and with no marker of a later
   * section in any label or text, yields exactly the four texts, trimmed.
   * Digits are allowed anywhere ("up 2%", "Q3 results"); only a later
   * section's digit followed by a full stop is excluded.
   */
  lemma FourSections(n1: string, b1: string, n2: string, b2: string, n3: string, b3: string, n4: string, b4: string)
    requires IsLabel(n1) && IsLabel(n2) && IsLabel(n3) && IsLabel(n4)
    requires NoLaterMarker(n1, 1) && NoLaterMarker(b1, 1) && NoLaterMarker(n2, 2) && NoLaterMarker(b2, 2)
    requires NoLaterMarker(n3, 3) && NoLaterMarker(b3, 3)
    ensures Parse(Section(1, n1, b1) + Section(2, n2, b2) + Section(3, n3, b3) + Section(4, n4, b4))
      == Report(Some(Trim(b1)), Some(Trim(b2)), Some(Trim(b3)), Some(Trim(b4)))
  {
    var s1, s2, s3, s4 := Section(1, n1, b1), Section(2, n2, b2), Section(3, n3, b3), Section(4, n4, b4);
    var s := s1 + s2 + s3 + s4;
    EarlierSectionsClear(n1, b1, n2, b2, n3, b3);
    assert !Contains(b1, Marker(2)) && !Contains(b2, Marker(3)) && !Contains(b3, Marker(4));
    assert !Contains([], Marker(1));
    SectionStarts(2, n2, b2, s3 + s4);
    SectionStarts(3, n3, b3, s4);
    SectionStarts(4, n4, b4, []);
    Regroup(s1, s2, s3, s4);
    FieldOfSection(s, [], 1, n1, b1, s2 + s3 + s4);
    FieldOfSection(s, s1, 2, n2, b2, s3 + s4);
    FieldOfSection(s, s1 + s2, 3, n3, b3, s4);
    FieldOfSection(s, s1 + s2 + s3, 4, n4, b4, []);
  }

  /** The layout above, for labels and texts with no digit 1 to 4 at all. */
  lemma DigitFreeSections(n1: string, b1: string, n2: string, b2: string, n3: string, b3: string, n4: string, b4: string)
    requires IsLabel(n1) && IsLabel(n2) && IsLabel(n3) && IsLabel(n4)
    requires NoMarkerDigit(n1) && NoMarkerDigit(b1) && NoMarkerDigit(n2) && NoMarkerDigit(b2)
    requires NoMarkerDigit(n3) && NoMarkerDigit(b3)
    ensures Parse(Section(1, n1, b1) + Section(2, n2, b2) + Section(3, n3, b3) + Section(4, n4, b4))
      == Report(Some(Trim(b1)), Some(Trim(b2)), Some(Trim(b3)), Some(Trim(b4)))
  {
    NoMarkerDigitClear(n1, 1);
    NoMarkerDigitClear(b1, 1);
    NoMarkerDigitClear(n2, 2);
    NoMarkerDigitClear(b2, 2);
    NoMarkerDigitClear(n3, 3);
    NoMarkerDigitClear(b3, 3);
    FourSections(n1, b1, n2, b2, n3, b3, n4, b4);
  }

  /** The short reply below as a single section followed by the next marker. */
  lemma ShortReplyLayout(text: string)
    requires text == "1.X:a2b2."
    ensures text == [] + Section(1, "X", "a2b") + "2."
    ensures !Contains("a2b", "2.") && IsLabel("X") && StartsWith("2.", Marker(2)) && Trim("a2b") == "a2b"
  {
    assert "a2b"[0..2][0] == 'a' && "a2b"[1..3][1] == 'b';
    TrimOfTrimmed("a2b");
  }

  /** A digit inside a section's text is kept: "1.X:a2b2." has the summary "a2b". */
  lemma DigitInSummary(text: string)
    requires text == "1.X:a2b2."
    ensures Field(text, 1) == Some("a2b")
  {
    ShortReplyLayout(text);
    FieldOfSection(text, [], 1, "X", "a2b", "2.");
  }

  /** Without the marker of section `k` in the text, field `k` is absent. */
  lemma NoMarkerNoField(s: string, k: nat)
    requires 1 <= k <= 4 && !Contains(s, Marker(k))
    ensures Field(s, k).None?
  {
    CaptureSpec(s, k);
  }

  /** Without the marker of section `k + 1`, field `k` is absent as well: its expression needs that marker to end. */
  lemma NoNextMarkerNoField(s: string, k: nat)
    requires 1 <= k <= 3 && !Contains(s, Marker(k + 1))
    ensures Field(s, k).None?
  {
    CaptureSpec(s, k);
  }

  /** A reply without "3." has neither advice nor outlook. */
  lemma NoThirdMarker(s: string)
    requires !Contains(s, "3.")
    ensures Parse(s).advice.None? && Parse(s).outlook.None?
  {
    assert Marker(3) == "3.";
    NoNextMarkerNoField(s, 2);
    NoMarkerNoField(s, 3);
  }

  /** The sentiment field runs from the selected colon after "4." to the very end of the text. */
  lemma SentimentToEnd(s: string)
    requires Field(s, 4).Some?
    ensures exists p: nat, c: nat :: Selected(s, 4, p, c, |s|) && Field(s, 4).value == Trim(s[c + 1..])
  {
    SearchSelects(s, 4);
    var (p, c, q) := SearchFrom(s, 4, 0).value;
    assert q == |s| && Capture(s, 4) == Some(s[c + 1..q]);
    assert s[c + 1..q] == s[c + 1..];
    assert Selected(s, 4, p, c, |s|) && Field(s, 4).value == Trim(s[c + 1..]);
  }

  // ---------------------------------------------------------------------
  // What the widget commits.
  // ---------------------------------------------------------------------

  /** The report committed when nothing usable came back. */
  const Fallback := Report(Some("No significant information found."), Some("Hold"), Some("Stable"), Some("Neutral"))

  /** `summary || advice || outlook || sentiment`. */
  predicate HasContent(r: Report) {
    Truthy(r.summary) || Truthy(r.advice) || Truthy(r.outlook) || Truthy(r.sentiment)
  }

  /** What the request for an analysis did: it threw, or it returned a text. */
  datatype Analysis = Threw | Returned(text: string)

  /** `setSections({...})` when some field has content. */
  function CommitParsed(sections: Option<Report>, parsed: Report): Option<Report> {
    if HasContent(parsed) then Some(parsed) else sections
  }

  /** `if (!cancelled) setSections(prev => prev || fallback)`. */
  function CommitFallback(sections: Option<Report>, cancelled: bool): Option<Report> {
    if cancelled then sections else Some(sections.GetOr(Fallback))
  }

  /**
   * The widget's state once its analysis has finished: `prev` is the state
   * before, `cancelled` the cleanup flag when the analysis comes back, and
   * `backend` the answer to a request for a headline and a stock.
   */
  function Settle(prev: Option<Report>, portfolio: seq<string>, title: string, cancelled: bool,
                  backend: (string, string) -> Analysis): Option<Report> {
    if portfolio == [] then prev
    else
      match backend(title, portfolio[0])
      case Threw => CommitFallback(prev, cancelled)
      case Returned(text) =>
        if cancelled || text == "" then prev
        else CommitFallback(CommitParsed(prev, Parse(text)), cancelled)
  }

  /** With no stock there is nothing to analyse and nothing is committed. */
  lemma EmptyPortfolioNoCommit(prev: Option<Report>, title: string, cancelled: bool, backend: (string, string) -> Analysis)
    ensures Settle(prev, [], title, cancelled, backend) == prev
  {
  }

  /** After cleanup nothing is committed, whatever the analysis produced. */
  lemma CancelledNoCommit(prev: Option<Report>, portfolio: seq<string>, title: string, backend: (string, string) -> Analysis)
    ensures Settle(prev, portfolio, title, true, backend) == prev
  {
  }

  /** Only the first stock is asked about: two backends that agree on it settle the same way. */
  lemma OnlyFirstStock(prev: Option<Report>, portfolio: seq<string>, title: string, cancelled: bool,
                       backend: (string, string) -> Analysis, other: (string, string) -> Analysis)
    requires portfolio != [] ==> backend(title, portfolio[0]) == other(title, portfolio[0])
    ensures Settle(prev, portfolio, title, cancelled, backend) == Settle(prev, portfolio, title, cancelled, other)
  {
  }

  /** A reply with a non-empty section is committed as parsed, replacing whatever was there. */
  lemma ParsedCommits(prev: Option<Report>, portfolio: seq<string>, title: string, backend: (string, string) -> Analysis)
    requires portfolio != [] && backend(title, portfolio[0]).Returned?
    requires HasContent(Parse(backend(title, portfolio[0]).text))
    ensures Settle(prev, portfolio, title, false, backend) == Some(Parse(backend(title, portfolio[0]).text))
  {
    var text := backend(title, portfolio[0]).text;
    assert text != "" by {
      if text == "" {
        EmptyTextNoField(text);
      }
    }
  }

  /** An empty text has no sections. */
  lemma EmptyTextNoField(s: string)
    requires s == ""
    ensures !HasContent(Parse(s))
  {
    NoMarkerNoField(s, 1);
    NoMarkerNoField(s, 2);
    NoMarkerNoField(s, 3);
    NoMarkerNoField(s, 4);
  }

  /**
   * A request that threw, or a reply without any non-empty section, leaves
   * the previous report if there was one and the fallback otherwise.
   */
  lemma FallbackWhenNothingParsed(prev: Option<Report>, portfolio: seq<string>, title: string, backend: (string, string) -> Analysis)
    requires portfolio != []
    requires match backend(title, portfolio[0])
      case Threw => true
      case Returned(text) => text != "" && !HasContent(Parse(text))
    ensures Settle(prev, portfolio, title, false, backend) == Some(prev.GetOr(Fallback))
    ensures prev.None? ==> Settle(prev, portfolio, title, false, backend) == Some(Fallback)
  {
  }

  /** The fallback never overwrites a report: from a committed state only a parsed report can change it. */
  lemma FallbackNeverOverwrites(prev: Option<Report>, portfolio: seq<string>, title: string, cancelled: bool,
                                backend: (string, string) -> Analysis)
    requires prev.Some?
    ensures var after := Settle(prev, portfolio, title, cancelled, backend);
      after == prev || (portfolio != [] && backend(title, portfolio[0]).Returned? && after == Some(Parse(backend(title, portfolio[0]).text)))
  {
  }

  /** Once a report is committed the widget never goes back to "Analyzing...". */
  lemma CommittedStays(prev: Option<Report>, portfolio: seq<string>, title: string, cancelled: bool,
                       backend: (string, string) -> Analysis)
    requires prev.Some?
    ensures Settle(prev, portfolio, title, cancelled, backend).Some?
  {
  }

  /** The widget with its state: the headline and stocks it was created for, the committed report and the cleanup flag. */
  class Widget {
    const title: string
    const portfolio: seq<string>
    var sections: Option<Report>
    var cancelled: bool

    constructor(title: string, portfolio: seq<string>)
      ensures this.title == title && this.portfolio == portfolio
      ensures sections.None? && !cancelled
    {
      this.title := title;
      this.portfolio := portfolio;
      sections := None;
      cancelled := false;
    }

    /** The effect's cleanup: `cancelled = true`. */
    method Cleanup()
      modifies this
      ensures cancelled && sections == old(sections)
    {
      cancelled := true;
    }

    /** `analyze()`, with the request's outcome given by `backend` and read once the request is over. */
    method Analyze(backend: (string, string) -> Analysis)
      modifies this
      ensures sections == Settle(old(sections), portfolio, title, old(cancelled), backend)
      ensures cancelled == old(cancelled)
    {
      if |portfolio| == 0 {
        return;
      }
      var stock := portfolio[0];
      var outcome := backend(title, stock);
      if outcome.Returned? {
        var result := outcome.text;
        if cancelled || result == "" {
          return;
        }
        var parsed := Parse(result);
        if HasContent(parsed) {
          sections := Some(parsed);
        }
      }
      if !cancelled {
        if sections.None? {
          sections := Some(Fallback);
        }
      }
    }
  }

  // ---------------------------------------------------------------------
  // Display.
  // ---------------------------------------------------------------------

  /** The colour of the sentiment line. */
  datatype Tone = Green | Red | Yellow

  /** "Positive" anywhere makes it green, otherwise "Negative" makes it red, otherwise yellow. */
  function ToneOf(sentiment: string): (t: Tone)
    ensures t == Green <==> Contains(sentiment, "Positive")
    ensures t == Red <==> !Contains(sentiment, "Positive") && Contains(sentiment, "Negative")
  {
    if Contains(sentiment, "Positive") then Green
    else if Contains(sentiment, "Negative") then Red
    else Yellow
  }

  /** The sentiment line is shown, in its colour, only when the field has content. */
  function DisplayedTone(r: Report): Option<Tone> {
    if Truthy(r.sentiment) then Some(ToneOf(r.sentiment.value)) else None
  }

  // ---------------------------------------------------------------------
  // Examples.
  // ---------------------------------------------------------------------

  /** The sample reply's labels and section words. */
  predicate SamplePieces(n1: string, w1: string, n2: string, w2: string, n3: string, w3: string, n4: string, w4: string) {
    && n1 == " Summary" && w1 == "Market is up" && n2 == " Advice" && w2 == "Hold"
    && n3 == " Outlook" && w3 == "Stable" && n4 == " Sentiment" && w4 == "Positive"
  }

  /** The sample's labels and padded words meet the layout conditions. */
  lemma SampleShape(n1: string, w1: string, n2: string, w2: string, n3: string, w3: string, n4: string, w4: string)
    requires SamplePieces(n1, w1, n2, w2, n3, w3, n4, w4)
    ensures IsLabel(n1) && IsLabel(n2) && IsLabel(n3) && IsLabel(n4)
    ensures NoMarkerDigit(n1) && NoMarkerDigit(" " + w1 + " ") && NoMarkerDigit(n2) && NoMarkerDigit(" " + w2 + " ")
    ensures NoMarkerDigit(n3) && NoMarkerDigit(" " + w3 + " ") && NoMarkerDigit(n4)
  {
  }

  /** The sample's padded words trim to the words. */
  lemma SampleTrimmed(w1: string, w2: string, w3: string, w4: string)
    requires w1 == "Market is up" && w2 == "Hold" && w3 == "Stable" && w4 == "Positive"
    ensures Trim(" " + w1 + " ") == w1 && Trim(" " + w2 + " ") == w2
    ensures Trim(" " + w3 + " ") == w3 && Trim(" " + w4) == w4
  {
    TrimPadded(" ", w1, " ");
    TrimPadded(" ", w2, " ");
    TrimPadded(" ", w3, " ");
    assert " " + w4 + "" == " " + w4;
    TrimPadded(" ", w4, "");
  }

  /**
   * The reply "1. Summary: Market is up 2. Advice: Hold 3. Outlook: Stable
   * 4. Sentiment: Positive", given by its labels and words, yields the four
   * words as its fields, and its sentiment is shown in green.
   */
  lemma SampleReply(n1: string, w1: string, n2: string, w2: string, n3: string, w3: string, n4: string, w4: string)
    requires SamplePieces(n1, w1, n2, w2, n3, w3, n4, w4)
    ensures var r := Parse(Section(1, n1, " " + w1 + " ") + Section(2, n2, " " + w2 + " ")
                           + Section(3, n3, " " + w3 + " ") + Section(4, n4, " " + w4));
      && r == Report(Some(w1), Some(w2), Some(w3), Some(w4))
      && HasContent(r) && DisplayedTone(r) == Some(Green)
  {
    SampleShape(n1, w1, n2, w2, n3, w3, n4, w4);
    DigitFreeSections(n1, " " + w1 + " ", n2, " " + w2 + " ", n3, " " + w3 + " ", n4, " " + w4);
    SampleTrimmed(w1, w2, w3, w4);
    assert OccursAt(w4, "Positive", 0);
  }

  /** "Neutral", the client's stand-in for a failed request, has no section at all. */
  lemma NeutralHasNoSections(text: string)
    requires text == "Neutral"
    ensures Parse(text) == Report(None, None, None, None)
  {
    NotContainsFirst(text, Marker(1));
    NotContainsFirst(text, Marker(2));
    NotContainsFirst(text, Marker(3));
    NotContainsFirst(text, Marker(4));
    NoMarkerNoField(text, 1);
    NoMarkerNoField(text, 2);
    NoMarkerNoField(text, 3);
    NoMarkerNoField(text, 4);
  }

  /** A sentiment naming neither "Positive" nor "Negative" is shown in yellow; so is the fallback's. */
  lemma NeutralIsYellow(sentiment: string)
    requires sentiment == "Neutral"
    ensures ToneOf(sentiment) == Yellow
    ensures DisplayedTone(Fallback) == Some(Yellow)
  {
    NotContainsFirst(sentiment, "Positive");
    assert !Contains(sentiment, "Negative");
  }

  /**
   * End to end: the endpoint answers 500, the client turns that into
   * "Neutral", nothing is parsed, and a widget that had no report shows the
   * fallback, with its sentiment in yellow.
   */
  lemma FailedAnalysisShowsFallback(portfolio: seq<string>, title: string, backend: (string, string) -> Analysis)
    requires portfolio != []
    requires backend(title, portfolio[0])
      == Returned(Client.SentimentText(Some(AnalyzeSentiment.Reply(500, AnalyzeSentiment.ErrorBody(AnalyzeSentiment.AnalysisFailed)))))
    ensures Settle(None, portfolio, title, false, backend) == Some(Fallback)
    ensures DisplayedTone(Settle(None, portfolio, title, false, backend).value) == Some(Yellow)
  {
    NeutralHasNoSections("Neutral");
    NeutralIsYellow("Neutral");
  }
}
