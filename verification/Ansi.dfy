/**
 The ANSI log parser: a scanner that cuts a line into styled segments. Every character that is not part
 of an escape sequence comes out once, in order, in the style of all the sequences before it.
 */
module Ansi {
  import opened Text
  import opened Decimal

  const ESC: char := '\U{1B}'
  const BEL: char := '\U{07}'

  // Escape sequences.

  /**
   The length of the escape character, or of its six-character spelling, at the start of `s`; 0 if neither is
   there.
   */
  function EscLength(s: string): (n: nat)
    ensures n <= |s|
  {
    if s != "" && s[0] == ESC then 1
    else if "\\u001b" <= s then 6
    else 0
  }

  function RunOf(s: string, accepts: char -> bool): (n: nat)
    ensures n <= |s|
    ensures forall i :: 0 <= i < n ==> accepts(s[i])
  {
    if s == "" || !accepts(s[0]) then 0 else 1 + RunOf(s[1..], accepts)
  }

  /** The length of escape, bracket, parameters, final character at the start of `s`; 0 if that is not there. */
  function CsiLength(s: string, parameter: char -> bool, final: char -> bool): (n: nat)
    ensures n <= |s|
    ensures n > 0 ==> EscLength(s) > 0 && EscLength(s) + 2 <= n
    ensures n > 0 ==> forall i :: EscLength(s) + 1 <= i < n - 1 ==> parameter(s[i])
  {
    var e := EscLength(s);
    if e == 0 || e >= |s| || s[e] != '[' then 0
    else
      var run := RunOf(s[e + 1..], parameter);
      var n := e + 1 + run;
      if n < |s| && final(s[n]) then n + 1 else 0
  }

  predicate SgrParameter(c: char) {
    IsDigit(c) || c == ';'
  }

  function SgrLength(s: string): (n: nat)
    ensures n <= |s|
    ensures n > 0 ==> EscLength(s) + 2 <= n && forall i :: EscLength(s) + 1 <= i < n - 1 ==> SgrParameter(s[i])
  {
    CsiLength(s, SgrParameter, c => c == 'm')
  }

  function NonSgrLength(s: string): (n: nat)
    ensures n <= |s|
  {
    CsiLength(s, c => IsDigit(c) || c == ';' || c == '?',
              c => ('A' <= c <= 'Z' && c != 'M') || ('a' <= c <= 'z' && c != 'm'))
  }

  function OscLength(s: string): (n: nat)
    ensures n <= |s|
  {
    var e := EscLength(s);
    if e == 0 || e >= |s| || s[e] != ']' then 0
    else
      var n := e + 1 + RunOf(s[e + 1..], c => c != BEL && c != ESC);
      if n < |s| && s[n] == BEL then n + 1
      else if n + 1 < |s| && s[n] == ESC && s[n + 1] == '\\' then n + 2
      else 0
  }

  /** replace(regex, ''): all matches, leftmost first, taken out. */
  function Without(s: string, length: string -> nat): string
    decreases |s|
  {
    if s == "" then ""
    else if 0 < length(s) <= |s| then Without(s[length(s)..], length)
    else [s[0]] + Without(s[1..], length)
  }

  function Cleaned(input: string): string {
    Without(Without(input, OscLength), NonSgrLength)
  }

  // Styles.

  datatype Style = Style(fg: Option<string>, bg: Option<string>, bold: bool, dim: bool, italic: bool, underline: bool)

  const PLAIN := Style(None, None, false, false, false, false)

  /** CSS properties that are set: text and background colour, bold weight, opacity 0.6, italic style, underline. */
  datatype Css = Css(color: Option<string>, backgroundColor: Option<string>, boldWeight: bool, dimOpacity: bool,
                     italicStyle: bool, underlined: bool)

  function BuildCssProperties(style: Style): Option<Css> {
    if style == PLAIN then None
    else Some(Css(style.fg, style.bg, style.bold, style.dim, style.italic, style.underline))
  }

  function StandardFg(i: nat): string requires i < 8 {
    ["#64748b", "#f87171", "#4ade80", "#facc15", "#60a5fa", "#c084fc", "#38bdf8", "#f1f5f9"][i]
  }

  function HighContrastFg(i: nat): string requires i < 8 {
    ["#94a3b8", "#ff3333", "#00ff66", "#ffff00", "#3399ff", "#ff33ff", "#00ffff", "#ffffff"][i]
  }

  function BrightFg(i: nat): string requires i < 8 {
    ["#94a3b8", "#ef4444", "#22c55e", "#eab308", "#3b82f6", "#a855f7", "#06b6d4", "#ffffff"][i]
  }

  function HighContrastBrightFg(i: nat): string requires i < 8 {
    ["#cbd5e1", "#ff4d4d", "#33ff77", "#ffff33", "#4da6ff", "#ff4dff", "#33ffff", "#ffffff"][i]
  }

  function StandardBg(i: nat): string requires i < 8 {
    ["#0f172a", "#991b1b", "#166534", "#854d0e", "#1e40af", "#6b21a8", "#155e75", "#e2e8f0"][i]
  }

  function BrightBg(i: nat): string requires i < 8 {
    ["#334155", "#dc2626", "#16a34a", "#ca8a04", "#2563eb", "#9333ea", "#0891b2", "#f8fafc"][i]
  }

  function Fg(i: nat, highContrast: bool): string requires i < 8 {
    if highContrast then HighContrastFg(i) else StandardFg(i)
  }

  function Bright(i: nat, highContrast: bool): string requires i < 8 {
    if highContrast then HighContrastBrightFg(i) else BrightFg(i)
  }

  function Rgb(r: nat, g: nat, b: nat): string {
    "rgb(" + ShowNat(r) + ", " + ShowNat(g) + ", " + ShowNat(b) + ")"
  }

  function Get256Color(index: nat, highContrast: bool): string {
    if index < 8 then Fg(index, highContrast)
    else if index < 16 then Bright(index - 8, highContrast)
    else if index <= 231 then
      var adjusted := index - 16;
      Rgb(adjusted / 36 * 51, adjusted % 36 / 6 * 51, adjusted % 6 * 51)
    else if index <= 255 then
      var c := 8 + (index - 232) * 10;
      Rgb(c, c, c)
    else "#ffffff"
  }

  /** What one SGR parameter that takes no arguments does. */
  function Single(style: Style, code: nat, highContrast: bool): Style {
    if code == 0 then PLAIN
    else if code == 1 then style.(bold := true)
    else if code == 2 then style.(dim := true)
    else if code == 3 then style.(italic := true)
    else if code == 4 then style.(underline := true)
    else if code == 22 then style.(bold := false, dim := false)
    else if code == 23 then style.(italic := false)
    else if code == 24 then style.(underline := false)
    else if 30 <= code <= 37 then style.(fg := Some(Fg(code - 30, highContrast)))
    else if code == 39 then style.(fg := None)
    else if 40 <= code <= 47 then style.(bg := Some(StandardBg(code - 40)))
    else if code == 49 then style.(bg := None)
    else if 90 <= code <= 97 then style.(fg := Some(Bright(code - 90, highContrast)))
    else if 100 <= code <= 107 then style.(bg := Some(BrightBg(code - 100)))
    else style
  }

  /**
   The parameters an item at the start of the list takes up: 38 and 48 take their arguments with them, if all
   are there.
   */
  function ItemLength(params: seq<nat>): (n: nat)
    requires params != []
    ensures 1 <= n <= |params|
  {
    if params[0] != 38 && params[0] != 48 then 1
    else if |params| >= 3 && params[1] == 5 then 3
    else if |params| >= 5 && params[1] == 2 then 5
    else 1
  }

  function Item(style: Style, params: seq<nat>, highContrast: bool): Style
    requires params != []
  {
    var n := ItemLength(params);
    if n == 1 then (if params[0] == 38 || params[0] == 48 then style else Single(style, params[0], highContrast))
    else
      var color := if n == 3 then Get256Color(params[2], highContrast) else Rgb(params[2], params[3], params[4]);
      if params[0] == 38 then style.(fg := Some(color)) else style.(bg := Some(color))
  }

  /** What the parameters of one sequence do, item by item from the left. */
  function Apply(style: Style, params: seq<nat>, highContrast: bool): Style
    decreases |params|
  {
    if params == [] then style
    else Apply(Item(style, params, highContrast), params[ItemLength(params)..], highContrast)
  }

  /** No colour at the end of the list still waits for arguments. */
  predicate Closed(params: seq<nat>)
    decreases |params|
  {
    params == [] ||
    (if ItemLength(params) == 1 && (params[0] == 38 || params[0] == 48)
     && (|params| == 1 || params[1] == 5 || params[1] == 2) then false
     else Closed(params[ItemLength(params)..]))
  }

  /** Parameters can be given in one sequence or in two, as long as the first does not stop inside a colour. */
  lemma {:induction false} ApplyInTwo(style: Style, params: seq<nat>, more: seq<nat>, highContrast: bool)
    requires Closed(params)
    ensures Apply(style, params + more, highContrast) == Apply(Apply(style, params, highContrast), more, highContrast)
    decreases |params|
  {
    if params == [] {
      assert params + more == more;
    } else {
      var n := ItemLength(params);
      assert ItemLength(params + more) == n;
      assert (params + more)[n..] == params[n..] + more;
      ApplyInTwo(Item(style, params, highContrast), params[n..], more, highContrast);
    }
  }

  /** paramsStr.split(';').map(Number): an empty piece is 0. */
  function Numbers(pieces: seq<string>): seq<nat>
    requires forall p :: p in pieces ==> AllDigits(p)
  {
    seq(|pieces|, i requires 0 <= i < |pieces| => assert pieces[i] in pieces; NatOf(pieces[i]))
  }

  lemma {:induction false} PiecesAreDigits(s: string)
    requires forall i :: 0 <= i < |s| ==> SgrParameter(s[i])
    ensures forall p :: p in Split(s, ';') ==> AllDigits(p)
    decreases |s|
  {
    var i := IndexOf(s, ';');
    forall k | 0 <= k < i ensures IsDigit(s[k]) {
      assert s[..i][k] == s[k];
    }
    if i == |s| {
    } else {
      PiecesAreDigits(s[i + 1..]);
    }
  }

  /** The parameters of the SGR sequence that `s` starts with. */
  function Params(s: string): seq<nat>
    requires SgrLength(s) > 0
  {
    var text := s[EscLength(s) + 1..SgrLength(s) - 1];
    PiecesAreDigits(text);
    if text == "" then [0] else Numbers(Split(text, ';'))
  }

  // The meaning of a cleaned text: its characters, each with a style.

  function StyledChars(s: string, style: Style, highContrast: bool): seq<(char, Option<Css>)>
    decreases |s|
  {
    if s == "" then []
    else if SgrLength(s) > 0 then StyledChars(s[SgrLength(s)..], Apply(style, Params(s), highContrast), highContrast)
    else [(s[0], BuildCssProperties(style))] + StyledChars(s[1..], style, highContrast)
  }

  /** The parameter lists of the sequences before the n-th character that is not in a sequence. */
  function SequencesBefore(s: string, n: nat): seq<seq<nat>>
    decreases |s|
  {
    if s == "" then []
    else if SgrLength(s) > 0 then [Params(s)] + SequencesBefore(s[SgrLength(s)..], n)
    else if n == 0 then []
    else SequencesBefore(s[1..], n - 1)
  }

  function Fold(style: Style, sequences: seq<seq<nat>>, highContrast: bool): Style
    decreases |sequences|
  {
    if sequences == [] then style else Fold(Apply(style, sequences[0], highContrast), sequences[1..], highContrast)
  }

  /** The text of the styled characters is the text with its SGR sequences taken out. */
  lemma {:induction false} TextConserved(s: string, style: Style, highContrast: bool)
    ensures var chars := StyledChars(s, style, highContrast);
            var text := Without(s, SgrLength);
            |chars| == |text| && forall n :: 0 <= n < |text| ==> chars[n].0 == text[n]
    decreases |s|
  {
    hide SgrLength, Params, Apply, BuildCssProperties;
    if s == "" {
    } else {
      if SgrLength(s) > 0 {
        TextConserved(s[SgrLength(s)..], Apply(style, Params(s), highContrast), highContrast);
      } else {
        TextConserved(s[1..], style, highContrast);
      }
    }
  }

  /** The style of each character is the left fold of the parameters of all the sequences before it. */
  lemma {:induction false} StyleIsFold(s: string, style: Style, highContrast: bool, n: nat)
    requires n < |StyledChars(s, style, highContrast)|
    ensures StyledChars(s, style, highContrast)[n].1
            == BuildCssProperties(Fold(style, SequencesBefore(s, n), highContrast))
    decreases |s|
  {
    hide SgrLength, Params, Apply, BuildCssProperties;
    if SgrLength(s) > 0 {
      StyleIsFold(s[SgrLength(s)..], Apply(style, Params(s), highContrast), highContrast, n);
      assert SequencesBefore(s, n)[1..] == SequencesBefore(s[SgrLength(s)..], n);
    } else if n > 0 {
      StyleIsFold(s[1..], style, highContrast, n - 1);
    }
  }

  // The parser.

  datatype AnsiSegment = AnsiSegment(text: string, style: Option<Css>)

  function Spread(text: string, css: Option<Css>): (chars: seq<(char, Option<Css>)>)
    ensures |chars| == |text| && forall i :: 0 <= i < |text| ==> chars[i] == (text[i], css)
  {
    seq(|text|, i requires 0 <= i < |text| => (text[i], css))
  }

  function Chars(segments: seq<AnsiSegment>): seq<(char, Option<Css>)> {
    if segments == [] then []
    else
      var last := segments[|segments| - 1];
      Chars(segments[..|segments| - 1]) + Spread(last.text, last.style)
  }

  /** The texts between the SGR sequences of `s`, in order, empty ones included. */
  function Pieces(s: string): (pieces: seq<string>)
    ensures |pieces| >= 1
    decreases |s|
  {
    if s == "" then [""]
    else if SgrLength(s) > 0 then [""] + Pieces(s[SgrLength(s)..])
    else
      var rest := Pieces(s[1..]);
      [[s[0]] + rest[0]] + rest[1..]
  }

  function NonEmpty(texts: seq<string>): (r: seq<string>)
    ensures forall text :: text in r <==> text in texts && text != ""
  {
    if texts == [] then []
    else (if texts[0] == "" then [] else [texts[0]]) + NonEmpty(texts[1..])
  }

  function Texts(segments: seq<AnsiSegment>): (texts: seq<string>)
    ensures |texts| == |segments| && forall k :: 0 <= k < |segments| ==> texts[k] == segments[k].text
  {
    seq(|segments|, k requires 0 <= k < |segments| => segments[k].text)
  }

  /** Up to the next sequence there is one piece. */
  lemma {:induction false} PieceRun(s: string, n: nat)
    requires n <= |s| && (forall i :: 0 <= i < n ==> SgrLength(s[i..]) == 0) && (n == |s| || SgrLength(s[n..]) > 0)
    ensures Pieces(s[n..])[0] == "" && Pieces(s) == [s[..n]] + Pieces(s[n..])[1..]
  {
    hide SgrLength;
    if n == 0 {
      assert s[0..] == s && s[..0] == "";
    } else {
      assert s[0..] == s;
      forall i | 0 <= i < n - 1 ensures SgrLength(s[1..][i..]) == 0 {
        assert s[1..][i..] == s[i + 1..];
      }
      assert s[1..][n - 1..] == s[n..];
      PieceRun(s[1..], n - 1);
      assert [s[0]] + s[1..][..n - 1] == s[..n];
    }
  }

  /** regex.exec: the next index at which an SGR sequence starts, or the end of the text. */
  function NextSgr(s: string, from: nat): (k: nat)
    requires from <= |s|
    ensures from <= k <= |s|
    ensures k < |s| ==> SgrLength(s[k..]) > 0
    ensures forall i :: from <= i < k ==> SgrLength(s[i..]) == 0
    decreases |s| - from
  {
    hide SgrLength;
    if from == |s| || SgrLength(s[from..]) > 0 then from else NextSgr(s, from + 1)
  }

  lemma PlainStep(s: string, style: Style, highContrast: bool)
    requires s != "" && SgrLength(s) == 0
    ensures StyledChars(s, style, highContrast)
            == [(s[0], BuildCssProperties(style))] + StyledChars(s[1..], style, highContrast)
  {
  }

  lemma SpreadStep(text: string, css: Option<Css>)
    requires text != ""
    ensures Spread(text, css) == [(text[0], css)] + Spread(text[1..], css)
  {
  }

  lemma NothingSpread(css: Option<Css>)
    ensures Spread("", css) == []
  {
  }

  /** Up to the next sequence, characters keep one style. */
  lemma {:induction false} PlainRun(s: string, from: nat, until: nat, style: Style, highContrast: bool)
    requires from <= until <= |s| && forall i :: from <= i < until ==> SgrLength(s[i..]) == 0
    ensures StyledChars(s[from..], style, highContrast)
         == Spread(s[from..until], BuildCssProperties(style)) + StyledChars(s[until..], style, highContrast)
    decreases until - from
  {
    hide SgrLength, BuildCssProperties, StyledChars, Spread;
    var css := BuildCssProperties(style);
    if from == until {
      NothingSpread(css);
      assert s[from..until] == "";
      assert [] + StyledChars(s[until..], style, highContrast) == StyledChars(s[until..], style, highContrast);
    } else {
      PlainRun(s, from + 1, until, style, highContrast);
      PlainStep(s[from..], style, highContrast);
      assert s[from..][1..] == s[from + 1..];
      SpreadStep(s[from..until], css);
      assert s[from..until][1..] == s[from + 1..until];
    }
  }

  lemma SegmentAdded(segments: seq<AnsiSegment>, segment: AnsiSegment)
    ensures Chars(segments + [segment]) == Chars(segments) + Spread(segment.text, segment.style)
  {
    assert (segments + [segment])[..|segments|] == segments;
  }

  /** The inner loop: the parameters of one sequence, with an index that skips the arguments of colours. */
  method ApplyParams(style: Style, params: seq<nat>, highContrast: bool) returns (r: Style)
    ensures r == Apply(style, params, highContrast)
  {
    hide Get256Color, Rgb, Single;
    r := style;
    var i := 0;
    while i < |params|
      invariant 0 <= i <= |params|
      invariant Apply(r, params[i..], highContrast) == Apply(style, params, highContrast)
    {
      var code := params[i];
      ghost var rest, before := params[i..], r;
      var consumed := 1;
      if code == 38 || code == 48 {
        if i + 1 < |params| && params[i + 1] == 5 && i + 2 < |params| {
          var color := Get256Color(params[i + 2], highContrast);
          if code == 38 {
            r := r.(fg := Some(color));
          } else {
            r := r.(bg := Some(color));
          }
          consumed := 3;
        } else if i + 1 < |params| && params[i + 1] == 2 && i + 4 < |params| {
          var color := Rgb(params[i + 2], params[i + 3], params[i + 4]);
          if code == 38 {
            r := r.(fg := Some(color));
          } else {
            r := r.(bg := Some(color));
          }
          consumed := 5;
        }
      } else {
        r := Single(r, code, highContrast);
      }
      assert consumed == ItemLength(rest) && r == Item(before, rest, highContrast);
      assert rest[consumed..] == params[i + consumed..];
      i := i + consumed;
    }
  }

  /** The segments so far and the styled characters of what is left of the text make up those of the whole text. */
  ghost predicate Parsed(segments: seq<AnsiSegment>, cleaned: string, from: nat, style: Style, highContrast: bool) {
    && from <= |cleaned|
    && Chars(segments) + StyledChars(cleaned[from..], style, highContrast) == StyledChars(cleaned, PLAIN, highContrast)
    && Texts(segments) + NonEmpty(Pieces(cleaned[from..])) == NonEmpty(Pieces(cleaned))
  }

  lemma NothingParsed(cleaned: string, highContrast: bool)
    ensures Parsed([], cleaned, 0, PLAIN, highContrast)
  {
    hide StyledChars, Pieces, NonEmpty;
    assert cleaned[0..] == cleaned;
    assert Texts([]) == [];
  }

  lemma AllParsed(segments: seq<AnsiSegment>, cleaned: string, style: Style, highContrast: bool)
    requires Parsed(segments, cleaned, |cleaned|, style, highContrast)
    ensures Chars(segments) == StyledChars(cleaned, PLAIN, highContrast)
    ensures Texts(segments) == NonEmpty(Pieces(cleaned))
  {
    hide SgrLength, Chars;
    assert cleaned[|cleaned|..] == "";
    assert NonEmpty(Pieces("")) == [];
  }

  lemma NextPiece(s: string, from: nat, until: nat)
    requires from <= until <= |s| && forall i :: from <= i < until ==> SgrLength(s[i..]) == 0
    requires until == |s| || SgrLength(s[until..]) > 0
    ensures NonEmpty(Pieces(s[from..])) ==
            (if from == until then [] else [s[from..until]]) + NonEmpty(Pieces(s[until..]))
  {
    hide SgrLength, Pieces;
    var rest, n := s[from..], until - from;
    forall i | 0 <= i < n ensures SgrLength(rest[i..]) == 0 {
      assert rest[i..] == s[from + i..];
    }
    assert rest[n..] == s[until..] && rest[..n] == s[from..until];
    PieceRun(rest, n);
    assert Pieces(s[until..]) == [""] + Pieces(s[until..])[1..];
  }

  lemma Regrouped<T>(a: seq<T>, b: seq<T>, c: seq<T>)
    ensures a + (b + c) == (a + b) + c
  {
  }

  /** Text up to the next sequence becomes a segment, unless it is empty. */
  method Emit(segments: seq<AnsiSegment>, cleaned: string, from: nat, until: nat, style: Style, highContrast: bool)
    returns (r: seq<AnsiSegment>)
    requires Parsed(segments, cleaned, from, style, highContrast)
    requires from <= until <= |cleaned| && forall i :: from <= i < until ==> SgrLength(cleaned[i..]) == 0
    requires until == |cleaned| || SgrLength(cleaned[until..]) > 0
    ensures Parsed(r, cleaned, until, style, highContrast)
    ensures var text := cleaned[from..until];
            r == segments + if text == "" then [] else [AnsiSegment(text, BuildCssProperties(style))]
  {
    hide BuildCssProperties, StyledChars, Spread, Chars, SgrLength, Pieces, NonEmpty;
    var text := cleaned[from..until];
    PlainRun(cleaned, from, until, style, highContrast);
    NextPiece(cleaned, from, until);
    if text == "" {
      assert from == until;
      return segments;
    }
    var segment := AnsiSegment(text, BuildCssProperties(style));
    SegmentAdded(segments, segment);
    Regrouped(Chars(segments), Spread(text, segment.style), StyledChars(cleaned[until..], style, highContrast));
    r := segments + [segment];
    assert Texts(r) == Texts(segments) + [text];
  }

  /** A sequence adds no character; its parameters change the style of what follows. */
  lemma SequenceParsed(segments: seq<AnsiSegment>, cleaned: string, at: nat, style: Style, highContrast: bool)
    requires Parsed(segments, cleaned, at, style, highContrast) && at < |cleaned| && SgrLength(cleaned[at..]) > 0
    ensures Parsed(segments, cleaned, at + SgrLength(cleaned[at..]), Apply(style, Params(cleaned[at..]), highContrast),
                   highContrast)
  {
    hide SgrLength, Params, Apply, Chars;
    var rest := cleaned[at..];
    assert rest[SgrLength(rest)..] == cleaned[at + SgrLength(rest)..];
    assert Pieces(rest)[1..] == Pieces(rest[SgrLength(rest)..]);
  }

  lemma EmptyInput(highContrast: bool)
    ensures Chars([]) == StyledChars(Cleaned(""), PLAIN, highContrast)
    ensures Texts([]) == NonEmpty(Pieces(Cleaned("")))
  {
    hide OscLength, NonSgrLength, SgrLength;
    assert Without("", OscLength) == "";
  }

  /**
   parseAnsi: the segments' texts are the texts between successive SGR sequences of the cleaned text that are
   not empty, and with their styles they spell out its styled characters, so that TextConserved and StyleIsFold
   speak about them.
   */
  method ParseAnsi(input: string, highContrast: bool) returns (segments: seq<AnsiSegment>)
    ensures Texts(segments) == NonEmpty(Pieces(Cleaned(input)))
    ensures Chars(segments) == StyledChars(Cleaned(input), PLAIN, highContrast)
  {
    hide *;
    segments := [];
    if input == "" {
      EmptyInput(highContrast);
      return;
    }
    var currentStyle := PLAIN;
    var cleaned := Cleaned(input);
    var lastIndex := 0;
    NothingParsed(cleaned, highContrast);
    var next := NextSgr(cleaned, 0);
    while next < |cleaned|
      invariant lastIndex <= |cleaned| && next == NextSgr(cleaned, lastIndex)
      invariant Parsed(segments, cleaned, lastIndex, currentStyle, highContrast)
      decreases |cleaned| - lastIndex
    {
      segments := Emit(segments, cleaned, lastIndex, next, currentStyle, highContrast);
      SequenceParsed(segments, cleaned, next, currentStyle, highContrast);
      lastIndex := next + SgrLength(cleaned[next..]);
      currentStyle := ApplyParams(currentStyle, Params(cleaned[next..]), highContrast);
      next := NextSgr(cleaned, lastIndex);
    }
    segments := Emit(segments, cleaned, lastIndex, |cleaned|, currentStyle, highContrast);
    AllParsed(segments, cleaned, currentStyle, highContrast);
  }
}
