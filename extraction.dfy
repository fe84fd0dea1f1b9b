/**
 * Bounding-box extraction from the model's free-text answer.
 *
 * The answer is scanned with the global regular expression
 *   \[(0\.\d+|1\.0|0|1),\s*(0\.\d+|1\.0|0|1),\s*(0\.\d+|1\.0|0|1),\s*(0\.\d+|1\.0|0|1)\]
 * Every match yields a box whose coordinates come from stripping the
 * brackets, splitting at commas, trimming and `parseFloat`, and whose
 * context is the text up to 50 characters either side of the match.
 *
 * The regular expression is modelled by a deterministic matcher `MatchAt`.
 * A token can only be followed by `,` or `]`, neither of which is a digit or
 * `.`, and `\s*` can only be followed by a digit, so backtracking never finds
 * a second way to match at the same position; `MatchAtSound` and
 * `MatchAtComplete` prove that `MatchAt` accepts exactly the texts of the
 * form `TupleText`, the language of the pattern.
 */
module BoxExtraction {
  import opened JsBuiltins
  import opened QATypes

  /** Characters of answer text kept on each side of a match. */
  const ContextRadius: nat := 50

  // ---------------------------------------------------------------------------
  // The language of the pattern

  /** One alternative of `(0\.\d+|1\.0|0|1)`. */
  predicate IsToken(t: string)
  {
    t == "0" || t == "1" || t == "1.0" || (|t| >= 3 && t[0] == '0' && t[1] == '.' && AllDigits(t[2..]))
  }

  /** Four tokens and the three runs of white space that follow the commas. */
  predicate WellFormedTuple(groups: seq<string>, spaces: seq<string>)
  {
    && |groups| == 4 && |spaces| == 3
    && (forall k :: 0 <= k < 4 ==> IsToken(groups[k]))
    && (forall k :: 0 <= k < 3 ==> AllSpaces(spaces[k]))
  }

  /** `g0,w0 g1,w1 g2,...` */
  function Fields(groups: seq<string>, spaces: seq<string>): string
    requires |groups| == |spaces| + 1
    decreases |spaces|
  {
    if spaces == [] then groups[0]
    else groups[0] + "," + spaces[0] + Fields(groups[1..], spaces[1..])
  }

  /** The text the pattern matches for the given tokens and white space. */
  function TupleText(groups: seq<string>, spaces: seq<string>): string
    requires |groups| == |spaces| + 1
  {
    "[" + Fields(groups, spaces) + "]"
  }

  /** `text[i..e]` spells out a tuple of the pattern. */
  predicate TupleAt(text: string, i: nat, e: nat, groups: seq<string>, spaces: seq<string>)
  {
    && i <= e <= |text|
    && WellFormedTuple(groups, spaces)
    && text[i..e] == TupleText(groups, spaces)
  }

  /** The numeric value a token denotes. */
  function TokenValue(t: string): (r: real)
    requires IsToken(t)
    ensures 0.0 <= r <= 1.0
  {
    if t == "0" then 0.0
    else if t == "1" || t == "1.0" then 1.0
    else FractionValue(t[2..])
  }

  // ---------------------------------------------------------------------------
  // The matcher

  /** A successful `exec`: `match.index` and the end of `match[0]`. */
  datatype TupleMatch = TupleMatch(index: nat, end: nat)

  /** Where the token starting at `p` ends, trying the alternatives in the pattern's order. */
  function TokenEnd(text: string, p: nat): (r: Option<nat>)
    requires p <= |text|
    ensures r.Some? ==> p < r.value <= |text|
  {
    if p + 2 < |text| && text[p] == '0' && text[p + 1] == '.' && IsDigit(text[p + 2]) then
      Some(p + 2 + DigitRun(text, p + 2))
    else if p + 2 < |text| && text[p] == '1' && text[p + 1] == '.' && text[p + 2] == '0' then
      Some(p + 3)
    else if p < |text| && (text[p] == '0' || text[p] == '1') then
      Some(p + 1)
    else None
  }

  /**
   * Matches `count` comma-separated fields starting at `p`, the last one
   * closed by `]`; returns the position after the `]`.
   */
  function FieldsEnd(text: string, p: nat, count: nat): (r: Option<nat>)
    requires p <= |text| && count >= 1
    ensures r.Some? ==> p < r.value <= |text|
    decreases count, |text| - p, 0
  {
    match TokenEnd(text, p)
    case None => None
    case Some(q) =>
      if q == |text| then None
      else if count == 1 then
        if text[q] == ']' then Some(q + 1) else None
      else if text[q] != ',' then None
      else SpacesThenFieldsEnd(text, q + 1, count - 1)
  }

  /** `\s*` followed by `count` fields. */
  function SpacesThenFieldsEnd(text: string, p: nat, count: nat): (r: Option<nat>)
    requires p <= |text| && count >= 1
    ensures r.Some? ==> p < r.value <= |text|
    decreases count, |text| - p, 1
  {
    if p < |text| && IsSpace(text[p]) then SpacesThenFieldsEnd(text, p + 1, count)
    else FieldsEnd(text, p, count)
  }

  /** Whether the pattern matches at position `i` of `text`, and where the match ends. */
  function MatchAt(text: string, i: nat): (r: Option<TupleMatch>)
    ensures r.Some? ==> r.value.index == i < r.value.end <= |text|
  {
    if i < |text| && text[i] == '[' then
      match FieldsEnd(text, i + 1, 4)
      case None => None
      case Some(e) => Some(TupleMatch(i, e))
    else None
  }

  // ---------------------------------------------------------------------------
  // Unfolding steps of the matcher

  lemma SliceConcat(text: string, a: nat, b: nat, c: nat)
    requires a <= b <= c <= |text|
    ensures text[a..c] == text[a..b] + text[b..c]
  {
  }

  /** What `TokenEnd` accepts is a token. */
  lemma TokenEndSound(text: string, p: nat)
    requires p <= |text| && TokenEnd(text, p).Some?
    ensures IsToken(text[p..TokenEnd(text, p).value])
  {
    var q := TokenEnd(text, p).value;
    if p + 2 < |text| && text[p] == '0' && text[p + 1] == '.' && IsDigit(text[p + 2]) {
      assert text[p..q][2..] == text[p + 2..q];
    } else if p + 2 < |text| && text[p] == '1' && text[p + 1] == '.' && text[p + 2] == '0' {
      assert text[p..q] == [text[p], text[p + 1], text[p + 2]];
    } else {
      assert text[p..q] == [text[p]];
    }
  }

  /** `\s*` is greedy: it skips the whole run of white space, up to `r`. */
  lemma {:induction false} SkipSpaces(text: string, p: nat, r: nat, count: nat)
    requires p <= r <= |text| && count >= 1
    requires forall k :: p <= k < r ==> IsSpace(text[k])
    requires r == |text| || !IsSpace(text[r])
    ensures SpacesThenFieldsEnd(text, p, count) == FieldsEnd(text, r, count)
    decreases r - p
  {
    if p < r {
      SkipSpaces(text, p + 1, r, count);
    }
  }

  /** One step of `FieldsEnd` through a token and a comma. */
  lemma FieldsEndStep(text: string, p: nat, q: nat, count: nat)
    requires p <= |text| && count >= 2
    requires TokenEnd(text, p) == Some(q) && q < |text| && text[q] == ','
    ensures FieldsEnd(text, p, count) == SpacesThenFieldsEnd(text, q + 1, count - 1)
  {
  }

  // ---------------------------------------------------------------------------
  // Soundness: whatever the matcher accepts is in the language

  /** The invariant of a successful `FieldsEnd`: the fields it went through. */
  predicate FieldsMatched(text: string, p: nat, count: nat, e: nat, groups: seq<string>, spaces: seq<string>)
  {
    && p < e <= |text|
    && |groups| == count && |spaces| + 1 == count
    && (forall k :: 0 <= k < count ==> IsToken(groups[k]))
    && (forall k :: 0 <= k < count - 1 ==> AllSpaces(spaces[k]))
    && text[p..e] == Fields(groups, spaces) + "]"
  }

  /** Appending one field to the front of a field list. */
  lemma FieldsCons(g: string, w: string, gs: seq<string>, ws: seq<string>)
    requires |gs| == |ws| + 1
    ensures Fields([g] + gs, [w] + ws) == g + "," + w + Fields(gs, ws)
  {
    assert ([g] + gs)[1..] == gs && ([w] + ws)[1..] == ws;
  }

  lemma FieldsMatchedCons(text: string, p: nat, q: nat, s: nat, count: nat, e: nat, gs: seq<string>, ws: seq<string>)
    requires count >= 2 && p < q < q + 1 + s <= |text|
    requires IsToken(text[p..q]) && text[q] == ',' && AllSpaces(text[q + 1..q + 1 + s])
    requires FieldsMatched(text, q + 1 + s, count - 1, e, gs, ws)
    ensures FieldsMatched(text, p, count, e, [text[p..q]] + gs, [text[q + 1..q + 1 + s]] + ws)
  {
    var g, w := text[p..q], text[q + 1..q + 1 + s];
    FieldsCons(g, w, gs, ws);
    CommaPieces(text, p, q, q + 1 + s, e);
    ConsAllFields(g, w, gs, ws);
  }

  /** The text from `p` to `e` cut at a comma at `q` and again at `r`. */
  lemma CommaPieces(text: string, p: nat, q: nat, r: nat, e: nat)
    requires p <= q < r <= e <= |text| && text[q] == ','
    ensures text[p..e] == text[p..q] + "," + text[q + 1..r] + text[r..e]
  {
    SliceConcat(text, p, q, e);
    SliceConcat(text, q, q + 1, e);
    SliceConcat(text, q + 1, r, e);
    assert text[q..q + 1] == ",";
  }

  /** Putting a token and a run of white space in front keeps every group a token and every gap white space. */
  lemma ConsAllFields(g: string, w: string, gs: seq<string>, ws: seq<string>)
    requires IsToken(g) && AllSpaces(w)
    requires forall k :: 0 <= k < |gs| ==> IsToken(gs[k])
    requires forall k :: 0 <= k < |ws| ==> AllSpaces(ws[k])
    ensures forall k :: 0 <= k < |gs| + 1 ==> IsToken(([g] + gs)[k])
    ensures forall k :: 0 <= k < |ws| + 1 ==> AllSpaces(([w] + ws)[k])
  {
  }

  /** A successful last field: its token and the closing `]`. */
  lemma FieldsEndLast(text: string, p: nat) returns (groups: seq<string>, spaces: seq<string>)
    requires p <= |text| && FieldsEnd(text, p, 1).Some?
    ensures FieldsMatched(text, p, 1, FieldsEnd(text, p, 1).value, groups, spaces)
  {
    var e := FieldsEnd(text, p, 1).value;
    var q := TokenEnd(text, p).value;
    TokenEndSound(text, p);
    SliceConcat(text, p, q, e);
    groups, spaces := [text[p..q]], [];
  }

  /** A successful non-last field: its token, the comma, and the white space the next field starts after. */
  lemma FieldsEndNext(text: string, p: nat, count: nat) returns (q: nat, s: nat)
    requires p <= |text| && count >= 2 && FieldsEnd(text, p, count).Some?
    ensures p < q && q + 1 + s <= |text|
    ensures IsToken(text[p..q]) && text[q] == ',' && AllSpaces(text[q + 1..q + 1 + s])
    ensures FieldsEnd(text, q + 1 + s, count - 1) == FieldsEnd(text, p, count)
  {
    q := TokenEnd(text, p).value;
    TokenEndSound(text, p);
    s := SpaceRun(text, q + 1);
    FieldsEndStep(text, p, q, count);
    SkipSpaces(text, q + 1, q + 1 + s, count - 1);
  }

  /** The fields `FieldsEnd` went through, returned as tokens and white space. */
  lemma {:induction false} FieldsEndSound(text: string, p: nat, count: nat) returns (groups: seq<string>, spaces: seq<string>)
    requires p <= |text| && count >= 1 && FieldsEnd(text, p, count).Some?
    ensures FieldsMatched(text, p, count, FieldsEnd(text, p, count).value, groups, spaces)
    decreases count
  {
    if count == 1 {
      groups, spaces := FieldsEndLast(text, p);
    } else {
      var q, s := FieldsEndNext(text, p, count);
      var gs, ws := FieldsEndSound(text, q + 1 + s, count - 1);
      FieldsMatchedCons(text, p, q, s, count, FieldsEnd(text, p, count).value, gs, ws);
      groups, spaces := [text[p..q]] + gs, [text[q + 1..q + 1 + s]] + ws;
    }
  }

  /** Whatever `MatchAt` reports spells out a tuple of the pattern, whose tokens and white space are returned. */
  lemma MatchAtSound(text: string, i: nat) returns (groups: seq<string>, spaces: seq<string>)
    requires MatchAt(text, i).Some?
    ensures TupleAt(text, i, MatchAt(text, i).value.end, groups, spaces)
  {
    var e := MatchAt(text, i).value.end;
    groups, spaces := FieldsEndSound(text, i + 1, 4);
    SliceConcat(text, i, i + 1, e);
    assert text[i..i + 1] == "[";
  }

  // ---------------------------------------------------------------------------
  // Completeness: every occurrence of the pattern's language is found

  lemma Cut(text: string, p: nat, e: nat, a: string, b: string)
    requires p <= e <= |text| && text[p..e] == a + b
    ensures p + |a| <= e
    ensures text[p..p + |a|] == a && text[p + |a|..e] == b
  {
    assert text[p..p + |a|] == text[p..e][..|a|];
    assert text[p + |a|..e] == text[p..e][|a|..];
  }

  /** A token followed by `,` or `]` is recognised with exactly its own length. */
  lemma TokenEndExact(text: string, p: nat, t: string)
    requires IsToken(t)
    requires p + |t| < |text| && text[p..p + |t|] == t
    requires text[p + |t|] == ',' || text[p + |t|] == ']'
    ensures TokenEnd(text, p) == Some(p + |t|)
  {
    assert forall k :: 0 <= k < |t| ==> text[p + k] == t[k];
    if |t| >= 3 && t[0] == '0' && t[1] == '.' {
      assert forall k :: p + 2 <= k < p + |t| ==> text[k] == t[2..][k - p - 2];
      DigitRunExact(text, p + 2, |t| - 2);
    }
  }

  /** The white space after a comma is followed by the next token's first digit. */
  lemma FieldsStartWithDigit(groups: seq<string>, spaces: seq<string>)
    requires |groups| == |spaces| + 1 && IsToken(groups[0])
    ensures |Fields(groups, spaces)| > 0 && IsDigit(Fields(groups, spaces)[0])
  {
    if spaces != [] {
      assert Fields(groups, spaces) == groups[0] + ("," + spaces[0] + Fields(groups[1..], spaces[1..]));
    }
  }

  /** Cutting the text of a non-final field into its token, comma, white space and the rest. */
  lemma FieldPieces(text: string, p: nat, e: nat, groups: seq<string>, spaces: seq<string>)
    requires FieldsMatched(text, p, |groups|, e, groups, spaces) && |spaces| >= 1
    ensures var q := p + |groups[0]|;
            && q + 1 + |spaces[0]| <= e
            && text[p..q] == groups[0] && text[q] == ','
            && text[q + 1..q + 1 + |spaces[0]|] == spaces[0]
            && text[q + 1 + |spaces[0]|..e] == Fields(groups[1..], spaces[1..]) + "]"
  {
    var g, w := groups[0], spaces[0];
    var tail := Fields(groups[1..], spaces[1..]);
    assert [g] + groups[1..] == groups && [w] + spaces[1..] == spaces;
    FieldsCons(g, w, groups[1..], spaces[1..]);
    assert text[p..e] == g + ("," + (w + (tail + "]")));
    Cut(text, p, e, g, "," + (w + (tail + "]")));
    var q := p + |g|;
    Cut(text, q, e, ",", w + (tail + "]"));
    Cut(text, q + 1, e, w, tail + "]");
    assert text[q] == text[q..q + 1][0];
  }

  /** Reading the text of a non-final field: where its token, comma and white space lie. */
  lemma FieldHead(text: string, p: nat, e: nat, groups: seq<string>, spaces: seq<string>)
    requires FieldsMatched(text, p, |groups|, e, groups, spaces) && |spaces| >= 1
    ensures var q := p + |groups[0]|;
            && q + 1 + |spaces[0]| < e
            && TokenEnd(text, p) == Some(q) && text[q] == ','
            && (forall k :: q + 1 <= k < q + 1 + |spaces[0]| ==> IsSpace(text[k]))
            && !IsSpace(text[q + 1 + |spaces[0]|])
            && FieldsMatched(text, q + 1 + |spaces[0]|, |groups| - 1, e, groups[1..], spaces[1..])
  {
    FieldPieces(text, p, e, groups, spaces);
    var g, w := groups[0], spaces[0];
    var q := p + |g|;
    var r := q + 1 + |w|;
    assert IsToken(g) && AllSpaces(w) && IsToken(groups[1]);
    TokenEndExact(text, p, g);
    assert forall k :: q + 1 <= k < r ==> text[k] == w[k - q - 1];
    FieldsStartWithDigit(groups[1..], spaces[1..]);
    assert text[r] == text[r..e][0];
  }

  /** Text that spells out fields ending in `]` is recognised to its end. */
  lemma {:induction false} FieldsEndComplete(text: string, p: nat, e: nat, groups: seq<string>, spaces: seq<string>)
    requires FieldsMatched(text, p, |groups|, e, groups, spaces)
    ensures FieldsEnd(text, p, |groups|) == Some(e)
    decreases |spaces|
  {
    if spaces == [] {
      FieldsEndOne(text, p, e, groups);
    } else {
      var r := FieldAdvance(text, p, e, groups, spaces);
      FieldsEndComplete(text, r, e, groups[1..], spaces[1..]);
    }
  }

  /** A single field followed by `]` is recognised to its end. */
  lemma FieldsEndOne(text: string, p: nat, e: nat, groups: seq<string>)
    requires FieldsMatched(text, p, 1, e, groups, [])
    ensures FieldsEnd(text, p, 1) == Some(e)
  {
    var g := groups[0];
    assert IsToken(g);
    Cut(text, p, e, g, "]");
    TokenEndExact(text, p, g);
  }

  /** The matcher moves from a non-final field to the start of the next one. */
  lemma FieldAdvance(text: string, p: nat, e: nat, groups: seq<string>, spaces: seq<string>) returns (r: nat)
    requires FieldsMatched(text, p, |groups|, e, groups, spaces) && |spaces| >= 1
    ensures FieldsMatched(text, r, |groups| - 1, e, groups[1..], spaces[1..])
    ensures FieldsEnd(text, p, |groups|) == FieldsEnd(text, r, |groups| - 1)
  {
    FieldHead(text, p, e, groups, spaces);
    var q := p + |groups[0]|;
    r := q + 1 + |spaces[0]|;
    FieldsEndStep(text, p, q, |groups|);
    SkipSpaces(text, q + 1, r, |groups| - 1);
  }

  /** Wherever the text spells out a tuple of the pattern, `MatchAt` finds exactly that match. */
  lemma MatchAtComplete(text: string, i: nat, e: nat, groups: seq<string>, spaces: seq<string>)
    requires TupleAt(text, i, e, groups, spaces)
    ensures MatchAt(text, i) == Some(TupleMatch(i, e))
  {
    var body := Fields(groups, spaces) + "]";
    assert TupleText(groups, spaces) == "[" + body;
    Cut(text, i, e, "[", body);
    assert text[i] == text[i..i + 1][0];
    FieldsEndComplete(text, i + 1, e, groups, spaces);
  }

  // ---------------------------------------------------------------------------
  // Coordinates: strip the brackets, split at commas, trim, parseFloat

  /** `match[0].replace('[', '').replace(']', '').split(',').map(c => parseFloat(c.trim()))` */
  function ParsedCoordinates(matched: string): seq<Number>
  {
    var parts := Split(RemoveFirst(RemoveFirst(matched, '['), ']'), ',');
    seq(|parts|, k requires 0 <= k < |parts| => ParseFloat(Trim(parts[k])))
  }

  /** `parseFloat` reads each token as the value it denotes. */
  lemma TokenParses(t: string)
    requires IsToken(t)
    ensures ParseFloat(t) == Num(TokenValue(t))
  {
    if |t| >= 3 && t[0] == '0' && t[1] == '.' {
      FractionTokenParses(t);
    } else if |t| == 3 {
      assert t == "1.0";
      OnePointZeroParses(t);
    } else {
      assert t == "0" || t == "1";
      DigitTokenParses(t);
    }
  }

  lemma FractionTokenParses(t: string)
    requires |t| >= 3 && t[0] == '0' && t[1] == '.' && AllDigits(t[2..])
    ensures ParseFloat(t) == Num(TokenValue(t))
  {
    FractionTokenPieces(t);
    ParseFloatDecimal("0", t[2..]);
    DigitsValueZero();
  }

  lemma FractionTokenPieces(t: string)
    requires |t| >= 3 && t[0] == '0' && t[1] == '.'
    ensures t == "0" + "." + t[2..]
  {
  }

  lemma DigitsValueZero()
    ensures DigitsValue("0") == 0
  {
    assert "0"[..0] == [];
  }

  lemma OnePointZeroParses(t: string)
    requires |t| == 3 && t[0] == '1' && t[1] == '.' && t[2] == '0'
    ensures ParseFloat(t) == Num(TokenValue(t))
  {
    OnePointZeroPieces(t);
    ParseFloatDecimal([t[0]], [t[2]]);
    OnePointZeroValue(t);
  }

  lemma OnePointZeroPieces(t: string)
    requires |t| == 3 && t[0] == '1' && t[1] == '.' && t[2] == '0'
    ensures t == [t[0]] + "." + [t[2]]
    ensures DigitsValue([t[0]]) == 1 && FractionValue([t[2]]) == 0.0
  {
    assert [t[0]][..0] == [];
    assert [t[2]][1..] == [];
  }

  lemma OnePointZeroValue(t: string)
    requires |t| == 3 && t[0] == '1' && t[1] == '.' && t[2] == '0'
    ensures IsToken(t) && TokenValue(t) == 1.0
  {
    assert t == "1.0";
  }

  lemma DigitTokenParses(t: string)
    requires |t| == 1 && (t[0] == '0' || t[0] == '1')
    ensures ParseFloat(t) == Num(TokenValue(t))
  {
    ParseFloatInteger(t);
    DigitTokenValue(t);
  }

  lemma DigitTokenValue(t: string)
    requires |t| == 1 && (t[0] == '0' || t[0] == '1')
    ensures IsToken(t) && TokenValue(t) == DigitsValue(t) as real
  {
    assert t[..0] == [];
    assert t == [t[0]];
  }

  /** Trimming white space off `w + t` gives back the token. */
  lemma TrimSpacesToken(w: string, t: string)
    requires AllSpaces(w) && IsToken(t)
    ensures Trim(w + t) == t
  {
    TokenEdges(t);
    TrimStartSpaces(w, t);
    TrimEndNoSpace(t);
  }

  /** A token starts and ends with a digit. */
  lemma TokenEdges(t: string)
    requires IsToken(t)
    ensures t != [] && !IsSpace(t[0]) && !IsSpace(t[|t| - 1])
  {
    assert IsDigit(t[0]) && IsDigit(t[|t| - 1]);
  }

  /** No token and no white space contains a bracket. */
  lemma {:induction false} FieldsHaveNoPunctuation(groups: seq<string>, spaces: seq<string>)
    requires |groups| == |spaces| + 1
    requires forall k :: 0 <= k < |groups| ==> IsToken(groups[k])
    requires forall k :: 0 <= k < |spaces| ==> AllSpaces(spaces[k])
    ensures '[' !in Fields(groups, spaces) && ']' !in Fields(groups, spaces)
    decreases |spaces|
  {
    assert IsToken(groups[0]);
    if spaces != [] {
      FieldsHaveNoPunctuation(groups[1..], spaces[1..]);
      assert AllSpaces(spaces[0]);
    }
  }

  /** Splitting the fields at commas gives `g0`, `w0 + g1`, `w1 + g2`, ... */
  lemma {:induction false} SplitFields(groups: seq<string>, spaces: seq<string>)
    requires |groups| == |spaces| + 1
    requires forall k :: 0 <= k < |groups| ==> IsToken(groups[k])
    requires forall k :: 0 <= k < |spaces| ==> AllSpaces(spaces[k])
    ensures |Split(Fields(groups, spaces), ',')| == |groups|
    ensures Split(Fields(groups, spaces), ',')[0] == groups[0]
    ensures forall k :: 1 <= k < |groups| ==> Split(Fields(groups, spaces), ',')[k] == spaces[k - 1] + groups[k]
    decreases |spaces|
  {
    var g := groups[0];
    assert IsToken(g) && ',' !in g;
    if spaces == [] {
      SplitPrefix(g, [], ',');
      assert g + [] == g;
    } else {
      var w := spaces[0];
      assert AllSpaces(w) && ',' !in w;
      var tail := Fields(groups[1..], spaces[1..]);
      SplitFields(groups[1..], spaces[1..]);
      assert Fields(groups, spaces) == g + [','] + (w + tail);
      SplitAtSeparator(g, w + tail, ',');
      SplitPrefix(w, tail, ',');
    }
  }

  /** Removing the first `[` and then the first `]` leaves the fields. */
  lemma StripBrackets(groups: seq<string>, spaces: seq<string>)
    requires WellFormedTuple(groups, spaces)
    ensures RemoveFirst(RemoveFirst(TupleText(groups, spaces), '['), ']') == Fields(groups, spaces)
  {
    var body := Fields(groups, spaces);
    FieldsHaveNoPunctuation(groups, spaces);
    RemoveFirstAfter([], body + "]", '[');
    assert [] + ['['] + (body + "]") == TupleText(groups, spaces);
    assert [] + (body + "]") == body + "]";
    RemoveFirstAfter(body, [], ']');
    assert body + [']'] + [] == body + "]";
    assert body + [] == body;
  }

  /** Each comma-separated part of the fields trims and parses to its token's value. */
  lemma FieldsParse(groups: seq<string>, spaces: seq<string>)
    requires WellFormedTuple(groups, spaces)
    ensures |Split(Fields(groups, spaces), ',')| == 4
    ensures forall k :: 0 <= k < 4 ==>
              ParseFloat(Trim(Split(Fields(groups, spaces), ',')[k])) == Num(TokenValue(groups[k]))
  {
    SplitFields(groups, spaces);
    var parts := Split(Fields(groups, spaces), ',');
    forall k | 0 <= k < 4
      ensures ParseFloat(Trim(parts[k])) == Num(TokenValue(groups[k]))
    {
      PartParses(groups, spaces, parts, k);
    }
  }

  /** One comma-separated part of the fields trims and parses to its token's value. */
  lemma PartParses(groups: seq<string>, spaces: seq<string>, parts: seq<string>, k: nat)
    requires WellFormedTuple(groups, spaces)
    requires |parts| == 4 && parts[0] == groups[0]
    requires forall i :: 1 <= i < 4 ==> parts[i] == spaces[i - 1] + groups[i]
    requires k < 4
    ensures ParseFloat(Trim(parts[k])) == Num(TokenValue(groups[k]))
  {
    if k == 0 {
      FirstPartTrims(groups[0]);
    } else {
      TrimSpacesToken(spaces[k - 1], groups[k]);
    }
    TokenParses(groups[k]);
  }

  /** The first part has no leading spaces to trim. */
  lemma FirstPartTrims(t: string)
    requires IsToken(t)
    ensures Trim(t) == t
  {
    TrimSpacesToken([], t);
    assert [] + t == t;
  }

  /** The source's coordinate parse gives the four token values, in order. */
  lemma TupleParses(groups: seq<string>, spaces: seq<string>)
    requires WellFormedTuple(groups, spaces)
    ensures |ParsedCoordinates(TupleText(groups, spaces))| == 4
    ensures forall k :: 0 <= k < 4 ==> ParsedCoordinates(TupleText(groups, spaces))[k] == Num(TokenValue(groups[k]))
  {
    StripBrackets(groups, spaces);
    FieldsParse(groups, spaces);
  }

  // ---------------------------------------------------------------------------
  // Boxes

  /** `Math.max(0, match.index - 50)` */
  function ContextStart(m: TupleMatch): (start: nat)
    ensures start <= m.index && m.index - start <= ContextRadius
    ensures start == 0 || m.index - start == ContextRadius
  {
    if m.index < ContextRadius then 0 else m.index - ContextRadius
  }

  /** `Math.min(text.length, match.index + match[0].length + 50)` */
  function ContextEnd(text: string, m: TupleMatch): (end: nat)
    ensures end <= |text| && end <= m.end + ContextRadius
    ensures end == |text| || end == m.end + ContextRadius
    ensures m.end <= |text| ==> m.end <= end
  {
    if |text| < m.end + ContextRadius then |text| else m.end + ContextRadius
  }

  /** The answer text within `ContextRadius` characters of the match, clamped to the text. */
  function Context(text: string, m: TupleMatch): (c: string)
    requires m.index <= m.end <= |text|
    ensures |c| <= (m.end - m.index) + 2 * ContextRadius
    ensures ContextStart(m) <= m.index && m.end <= ContextStart(m) + |c| <= |text|
    ensures text[ContextStart(m)..ContextStart(m) + |c|] == c
    ensures c[m.index - ContextStart(m)..m.end - ContextStart(m)] == text[m.index..m.end]
    ensures c == text[ContextStart(m)..ContextEnd(text, m)]
    ensures m.index - ContextStart(m) == Min(ContextRadius, m.index)
    ensures ContextStart(m) + |c| - m.end == Min(ContextRadius, |text| - m.end)
  {
    var start, end := ContextStart(m), ContextEnd(text, m);
    SliceOfSlice(text, start, end, m.index, m.end);
    text[start..end]
  }

  /** A slice taken inside a slice is the same slice of the whole text. */
  lemma SliceOfSlice(text: string, start: nat, end: nat, i: nat, j: nat)
    requires start <= i <= j <= end <= |text|
    ensures text[start..end][i - start..j - start] == text[i..j]
  {
    var inner := text[start..end][i - start..j - start];
    assert forall k :: 0 <= k < |inner| ==> inner[k] == text[i + k];
  }

  /** The box built for one match: the parsed coordinates and the context. */
  function BoxOf(text: string, m: TupleMatch): BoundingBox
    requires m.index <= m.end <= |text|
  {
    BoundingBox(ParsedCoordinates(text[m.index..m.end]), Context(text, m))
  }

  /** The leftmost match at or after `from` (what `exec` finds when `lastIndex` is `from`). */
  function FirstMatch(text: string, from: nat): (r: Option<TupleMatch>)
    requires from <= |text|
    ensures r.Some? ==> from <= r.value.index && MatchAt(text, r.value.index) == r
    decreases |text| - from
  {
    if from == |text| then None
    else
      var here := MatchAt(text, from);
      if here.Some? then here else FirstMatch(text, from + 1)
  }

  /** The successive matches of the global scan that starts at `from`. */
  function Matches(text: string, from: nat): (ms: seq<TupleMatch>)
    requires from <= |text|
    ensures forall k :: 0 <= k < |ms| ==> from <= ms[k].index < ms[k].end <= |text|
    decreases |text| - from
  {
    match FirstMatch(text, from)
    case None => []
    case Some(m) => [m] + Matches(text, m.end)
  }

  function BoxesOf(text: string, ms: seq<TupleMatch>): (bs: seq<BoundingBox>)
    requires forall k :: 0 <= k < |ms| ==> ms[k].index <= ms[k].end <= |text|
    ensures |bs| == |ms|
    ensures forall k :: 0 <= k < |ms| ==> bs[k] == BoxOf(text, ms[k])
  {
    if ms == [] then [] else [BoxOf(text, ms[0])] + BoxesOf(text, ms[1..])
  }

  /** One round of the scan: the first match's box, then the boxes of the scan from its end. */
  lemma BoxesStep(text: string, from: nat, m: TupleMatch)
    requires from <= |text| && FirstMatch(text, from) == Some(m)
    ensures BoxesOf(text, Matches(text, from)) == [BoxOf(text, m)] + BoxesOf(text, Matches(text, m.end))
  {
    var rest := Matches(text, m.end);
    assert Matches(text, from) == [m] + rest;
    assert ([m] + rest)[1..] == rest;
  }

  /** What `extractBoundingBoxes(text)` returns. */
  function Boxes(text: string): seq<BoundingBox>
  {
    BoxesOf(text, Matches(text, 0))
  }

  // ---------------------------------------------------------------------------
  // What the scan finds

  /** `FirstMatch` skips no match: nothing matches between `from` and what it returns, or anywhere when it returns nothing. */
  lemma {:induction false} FirstMatchLeftmost(text: string, from: nat)
    requires from <= |text|
    ensures FirstMatch(text, from).Some? ==>
              forall j :: from <= j < FirstMatch(text, from).value.index ==> MatchAt(text, j).None?
    ensures FirstMatch(text, from).None? ==> forall j :: from <= j < |text| ==> MatchAt(text, j).None?
    decreases |text| - from
  {
    if from < |text| && MatchAt(text, from).None? {
      FirstMatchLeftmost(text, from + 1);
    }
  }

  /** Every element of the scan is a match of the pattern at its own index. */
  lemma {:induction false} MatchesAreMatches(text: string, from: nat)
    requires from <= |text|
    ensures forall k :: 0 <= k < |Matches(text, from)| ==>
              MatchAt(text, Matches(text, from)[k].index) == Some(Matches(text, from)[k])
    decreases |text| - from
  {
    var first := FirstMatch(text, from);
    if first.Some? {
      var m := first.value;
      MatchesAreMatches(text, m.end);
      assert Matches(text, from) == [m] + Matches(text, m.end);
    }
  }

  /** The matches of the scan come in text order and do not overlap. */
  lemma {:induction false} MatchesOrdered(text: string, from: nat)
    requires from <= |text|
    ensures forall k :: 0 <= k < |Matches(text, from)| - 1 ==>
              Matches(text, from)[k].end <= Matches(text, from)[k + 1].index
    decreases |text| - from
  {
    var first := FirstMatch(text, from);
    if first.Some? {
      var m := first.value;
      MatchesOrdered(text, m.end);
      assert Matches(text, from) == [m] + Matches(text, m.end);
    }
  }

  /**
   * The scan misses no match except inside an earlier one: every position
   * where the pattern matches lies within some match of the scan.
   */
  lemma {:induction false} MatchesCover(text: string, from: nat, j: nat)
    requires from <= j < |text| && MatchAt(text, j).Some?
    ensures exists k :: 0 <= k < |Matches(text, from)| && Matches(text, from)[k].index <= j < Matches(text, from)[k].end
    decreases |text| - from
  {
    FirstMatchLeftmost(text, from);
    var m := FirstMatch(text, from).value;
    var ms := Matches(text, from);
    assert ms == [m] + Matches(text, m.end);
    if j >= m.end {
      MatchesCover(text, m.end, j);
      var k :| 0 <= k < |Matches(text, m.end)| && Matches(text, m.end)[k].index <= j < Matches(text, m.end)[k].end;
      assert ms[k + 1] == Matches(text, m.end)[k];
    } else {
      assert ms[0] == m;
    }
  }

  /** `extractBoundingBoxes` returns no box exactly when the pattern matches nowhere in the text. */
  lemma BoxesEmptyIff(text: string)
    ensures Boxes(text) == [] <==> forall j :: 0 <= j < |text| ==> MatchAt(text, j).None?
  {
    FirstMatchLeftmost(text, 0);
  }

  /** The box of a match: its coordinates are the values of the four tokens the match spells out. */
  lemma BoxOfMatch(text: string, m: TupleMatch) returns (groups: seq<string>, spaces: seq<string>)
    requires MatchAt(text, m.index) == Some(m)
    ensures TupleAt(text, m.index, m.end, groups, spaces)
    ensures |BoxOf(text, m).coordinates| == 4
    ensures forall k :: 0 <= k < 4 ==> BoxOf(text, m).coordinates[k] == Num(TokenValue(groups[k]))
  {
    groups, spaces := MatchAtSound(text, m.index);
    TupleParses(groups, spaces);
  }

  /** Every box `extractBoundingBoxes` returns has four finite coordinates between 0 and 1. */
  lemma BoxesNormalised(text: string)
    ensures forall k :: 0 <= k < |Boxes(text)| ==> NormalisedBox(Boxes(text)[k])
  {
    var ms := Matches(text, 0);
    MatchesAreMatches(text, 0);
    forall k | 0 <= k < |ms|
      ensures NormalisedBox(BoxOf(text, ms[k]))
    {
      var groups, spaces := BoxOfMatch(text, ms[k]);
      assert forall i :: 0 <= i < 4 ==> IsToken(groups[i]);
    }
  }

  /** Away from the ends of the text the context is the match with 50 characters on each side. */
  lemma ContextFullRadius(text: string, m: TupleMatch)
    requires ContextRadius <= m.index <= m.end && m.end + ContextRadius <= |text|
    ensures Context(text, m) == text[m.index - ContextRadius..m.end + ContextRadius]
    ensures |Context(text, m)| == (m.end - m.index) + 2 * ContextRadius
  {
  }

  // ---------------------------------------------------------------------------
  // The stateful global regular expression and the scanning loop

  /** A `/.../g` regular expression object for the tuple pattern; `exec` reads and updates `lastIndex`. */
  class GlobalTupleRegex {
    var lastIndex: nat

    constructor ()
      ensures lastIndex == 0
    {
      lastIndex := 0;
    }

    /**
     * `exec(text)`: the leftmost match at or after `lastIndex`; on success
     * `lastIndex` moves to the end of the match, on failure it is reset to 0.
     */
    method Exec(text: string) returns (r: Option<TupleMatch>)
      modifies this
      ensures old(lastIndex) <= |text| ==> r == FirstMatch(text, old(lastIndex))
      ensures old(lastIndex) > |text| ==> r == None
      ensures lastIndex == if r.Some? then r.value.end else 0
    {
      if lastIndex > |text| {
        lastIndex := 0;
        return None;
      }
      var start := lastIndex;
      var i := start;
      while i < |text|
        invariant start <= i <= |text|
        invariant FirstMatch(text, start) == FirstMatch(text, i)
        invariant lastIndex == start
      {
        var here := MatchAt(text, i);
        if here.Some? {
          lastIndex := here.value.end;
          return here;
        }
        i := i + 1;
      }
      lastIndex := 0;
      return None;
    }
  }

  /** `extractBoundingBoxes(text)`: run `exec` until it fails, building one box per match. */
  method ExtractBoundingBoxes(text: string) returns (boxes: seq<BoundingBox>)
    ensures boxes == Boxes(text)
  {
    boxes := [];
    var regex := new GlobalTupleRegex();
    ghost var from: nat := 0;
    var found := regex.Exec(text);
    while found.Some?
      invariant from <= |text|
      invariant found == FirstMatch(text, from)
      invariant found.Some? ==> regex.lastIndex == found.value.end
      invariant boxes + BoxesOf(text, Matches(text, from)) == Boxes(text)
      decreases |text| - from
    {
      var m := found.value;
      var coordinates := ParsedCoordinates(text[m.index..m.end]);
      var context := Context(text, m);
      ScanStep(text, from, m, boxes);
      boxes := boxes + [BoundingBox(coordinates, context)];
      from := m.end;
      found := regex.Exec(text);
    }
    ScanDone(text, from, boxes);
  }

  /** The loop invariant of the scan survives appending the first match's box. */
  lemma ScanStep(text: string, from: nat, m: TupleMatch, boxes: seq<BoundingBox>)
    requires from <= |text| && FirstMatch(text, from) == Some(m)
    requires boxes + BoxesOf(text, Matches(text, from)) == Boxes(text)
    ensures m.end <= |text|
    ensures (boxes + [BoxOf(text, m)]) + BoxesOf(text, Matches(text, m.end)) == Boxes(text)
  {
    BoxesStep(text, from, m);
  }

  /** When no match is left, the boxes built so far are all of them. */
  lemma ScanDone(text: string, from: nat, boxes: seq<BoundingBox>)
    requires from <= |text| && FirstMatch(text, from).None?
    requires boxes + BoxesOf(text, Matches(text, from)) == Boxes(text)
    ensures boxes == Boxes(text)
  {
    assert boxes + [] == boxes;
  }

  // ---------------------------------------------------------------------------
  // An example: what the pattern accepts and the coordinates it gives

  /** An accepted tuple with irregular white space, and the box built from it. */
  lemma ExampleFields()
    ensures Fields(["0.1", "0.25", "1", "0"], ["  ", "", " "]) == "0.1,  0.25,1, 0"
  {
    var groups, spaces := ["0.1", "0.25", "1", "0"], ["  ", "", " "];
    FieldsCons("0.1", "  ", groups[1..], spaces[1..]);
    FieldsCons("0.25", "", groups[2..], spaces[2..]);
    FieldsCons("1", " ", groups[3..], spaces[3..]);
    assert groups == ["0.1"] + groups[1..] && spaces == ["  "] + spaces[1..];
  }
  lemma ExampleTuple()
    ensures TupleAt("[0.1,  0.25,1, 0]", 0, 17, ["0.1", "0.25", "1", "0"], ["  ", "", " "])
  {
    ExampleWellFormed();
    ExampleText();
    ExampleWhole();
  }
  lemma ExampleWellFormed()
    ensures WellFormedTuple(["0.1", "0.25", "1", "0"], ["  ", "", " "])
  {
    assert AllDigits("1") && AllDigits("25");
  }
  lemma ExampleText()
    ensures TupleText(["0.1", "0.25", "1", "0"], ["  ", "", " "]) == "[0.1,  0.25,1, 0]"
  {
    ExampleFields();
  }
  lemma ExampleWhole()
    ensures "[0.1,  0.25,1, 0]"[0..17] == "[0.1,  0.25,1, 0]"
  {
  }
  lemma ExampleValues()
    ensures TokenValue("0.1") == 0.1 && TokenValue("0.25") == 0.25
  {
    assert "0.1"[2..] == "1";
    assert "0.25"[2..] == "25";
  }
  lemma ExampleAccepts()
    ensures MatchAt("[0.1,  0.25,1, 0]", 0) == Some(TupleMatch(0, 17))
    ensures var c := BoxOf("[0.1,  0.25,1, 0]", TupleMatch(0, 17)).coordinates;
            |c| == 4 && c[0] == Num(0.1) && c[1] == Num(0.25) && c[2] == Num(1.0) && c[3] == Num(0.0)
  {
    var text := "[0.1,  0.25,1, 0]";
    var groups, spaces := ["0.1", "0.25", "1", "0"], ["  ", "", " "];
    ExampleTuple();
    MatchAtComplete(text, 0, 17, groups, spaces);
    TupleParses(groups, spaces);
    ExampleValues();
    assert text[0..17] == TupleText(groups, spaces);
  }
}
