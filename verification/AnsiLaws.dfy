/**
 What the log parser takes for escape sequences, and what their codes mean: the laws that fix each code's effect and
 each pattern by the text it matches.
 */
module AnsiLaws {
  import opened Text
  import opened Decimal
  import opened Ansi
  // The effect of codes.

  /** A code that takes no arguments, field by field. */
  lemma CodeMeaning(style: Style, code: nat, highContrast: bool)
    requires code != 38 && code != 48
    ensures var t := Apply(style, [code], highContrast);
            && t.bold == (if code == 1 then true else if code in {0, 22} then false else style.bold)
            && t.dim == (if code == 2 then true else if code in {0, 22} then false else style.dim)
            && t.italic == (if code == 3 then true else if code in {0, 23} then false else style.italic)
            && t.underline == (if code == 4 then true else if code in {0, 24} then false else style.underline)
            && t.fg == (if code in {0, 39} then None
                        else if 30 <= code <= 37 then Some(Fg(code - 30, highContrast))
                        else if 90 <= code <= 97 then Some(Bright(code - 90, highContrast))
                        else style.fg)
            && t.bg == (if code in {0, 49} then None
                        else if 40 <= code <= 47 then Some(StandardBg(code - 40))
                        else if 100 <= code <= 107 then Some(BrightBg(code - 100))
                        else style.bg)
  {
    assert [code][1..] == [];
    hide Fg, Bright, StandardBg, BrightBg;
  }

  /** 38 sets the text colour and 48 the background: after 5 from the palette, after 2 by its three parts. */
  lemma ColourMeaning(style: Style, n: nat, r: nat, g: nat, b: nat, highContrast: bool)
    ensures Apply(style, [38, 5, n], highContrast) == style.(fg := Some(Get256Color(n, highContrast)))
    ensures Apply(style, [48, 5, n], highContrast) == style.(bg := Some(Get256Color(n, highContrast)))
    ensures Apply(style, [38, 2, r, g, b], highContrast) == style.(fg := Some(Rgb(r, g, b)))
    ensures Apply(style, [48, 2, r, g, b], highContrast) == style.(bg := Some(Rgb(r, g, b)))
  {
    hide Get256Color, Rgb;
    assert [38, 5, n][3..] == [48, 5, n][3..] == [];
    assert [38, 2, r, g, b][5..] == [48, 2, r, g, b][5..] == [];
  }

  lemma CubeParts(r: nat, g: nat, b: nat)
    requires r < 6 && g < 6 && b < 6
    ensures var k := 36 * r + 6 * g + b; k / 36 == r && k % 36 / 6 == g && k % 6 == b && k < 216
  {
    var k := 36 * r + 6 * g + b;
    assert k == 36 * r + (6 * g + b) && k == 6 * (6 * r + g) + b;
    assert k % 36 == 6 * g + b;
  }

  /** The palette: sixteen named colours, a cube of six steps per part, a ramp of greys, white beyond. */
  lemma PaletteMeaning(n: nat, r: nat, g: nat, b: nat, grey: nat, highContrast: bool)
    requires r < 6 && g < 6 && b < 6 && grey < 24
    ensures n < 8 ==> Get256Color(n, highContrast) == Fg(n, highContrast)
    ensures 8 <= n < 16 ==> Get256Color(n, highContrast) == Bright(n - 8, highContrast)
    ensures Get256Color(16 + 36 * r + 6 * g + b, highContrast) == Rgb(51 * r, 51 * g, 51 * b)
    ensures Get256Color(232 + grey, highContrast) == Rgb(8 + 10 * grey, 8 + 10 * grey, 8 + 10 * grey)
    ensures n > 255 ==> Get256Color(n, highContrast) == "#ffffff"
  {
    CubeParts(r, g, b);
    hide Fg, Bright, Rgb;
  }

  /** Text keeps no style exactly when nothing is set; else each property is there exactly when it is set. */
  lemma CssMeaning(style: Style)
    ensures var css := BuildCssProperties(style);
            && (css.None? <==> style.fg.None? && style.bg.None? && !style.bold && !style.dim && !style.italic
                               && !style.underline)
            && (css.Some? ==>
                  && css.value.color == style.fg && css.value.backgroundColor == style.bg
                  && css.value.boldWeight == style.bold && css.value.dimOpacity == style.dim
                  && css.value.italicStyle == style.italic && css.value.underlined == style.underline)
  {
  }

  // What is matched.

  /** A spelling of the escape character: itself or six characters. */
  predicate IsEscape(e: string) {
    e == "\U{1B}" || e == "\\u001b"
  }

  lemma EscapeAt(e: string, rest: string)
    requires IsEscape(e)
    ensures EscLength(e + rest) == |e|
  {
    assert (e + rest)[..|e|] == e;
  }

  lemma {:induction false} RunAcross(p: string, rest: string, accepts: char -> bool)
    requires forall i :: 0 <= i < |p| ==> accepts(p[i])
    requires rest != "" ==> !accepts(rest[0])
    ensures RunOf(p + rest, accepts) == |p|
  {
    if p == "" {
      assert p + rest == rest;
    } else {
      assert (p + rest)[1..] == p[1..] + rest;
      RunAcross(p[1..], rest, accepts);
    }
  }

  /** Escape, bracket, parameters, final character, whatever follows. */
  lemma CsiAt(e: string, params: string, last: char, rest: string, parameter: char -> bool, final: char -> bool)
    requires IsEscape(e) && (forall i :: 0 <= i < |params| ==> parameter(params[i])) && !parameter(last)
    ensures CsiLength(e + ("[" + (params + ([last] + rest))), parameter, final)
            == if final(last) then |e| + |params| + 2 else 0
  {
    var tail := params + ([last] + rest);
    var s := e + ("[" + tail);
    EscapeAt(e, "[" + tail);
    assert s[|e|] == '[' && s[|e| + 1..] == tail;
    RunAcross(params, [last] + rest, parameter);
    assert s[|e| + 1 + |params|] == last;
  }

  /** The sequences that set styles: numbers and semicolons, and an m. */
  lemma SgrAt(e: string, params: string, rest: string)
    requires IsEscape(e) && forall i :: 0 <= i < |params| ==> IsDigit(params[i]) || params[i] == ';'
    ensures SgrLength(e + ("[" + (params + ("m" + rest)))) == |e| + |params| + 2
  {
    CsiAt(e, params, 'm', rest, SgrParameter, c => c == 'm');
  }

  /** The other control sequences, which are taken out: any letter but m and M at the end. */
  lemma ControlAt(e: string, params: string, last: char, rest: string)
    requires IsEscape(e)
    requires forall i :: 0 <= i < |params| ==> IsDigit(params[i]) || params[i] == ';' || params[i] == '?'
    requires 'A' <= last <= 'Z' || 'a' <= last <= 'z'
    ensures NonSgrLength(e + ("[" + (params + ([last] + rest))))
            == if last != 'm' && last != 'M' then |e| + |params| + 2 else 0
  {
    CsiAt(e, params, last, rest, c => IsDigit(c) || c == ';' || c == '?',
          c => ('A' <= c <= 'Z' && c != 'M') || ('a' <= c <= 'z' && c != 'm'));
  }

  /** The operating system commands, which are taken out: up to a bell, or to escape and backslash. */
  lemma CommandAt(e: string, body: string, end: string, rest: string)
    requires IsEscape(e) && (end == "\U{07}" || end == "\U{1B}\\")
    requires forall i :: 0 <= i < |body| ==> body[i] != '\U{07}' && body[i] != '\U{1B}'
    ensures OscLength(e + ("]" + (body + (end + rest)))) == |e| + 1 + |body| + |end|
  {
    var tail := body + (end + rest);
    var s := e + ("]" + tail);
    EscapeAt(e, "]" + tail);
    assert s[|e|] == ']' && s[|e| + 1..] == tail;
    RunAcross(body, end + rest, c => c != BEL && c != ESC);
    assert s[|e| + 1 + |body|] == end[0];
    assert |end| == 2 ==> s[|e| + 2 + |body|] == end[1];
  }

  function Shown(ns: seq<nat>): (r: seq<string>)
    ensures |r| == |ns| && forall i :: 0 <= i < |ns| ==> r[i] == ShowNat(ns[i])
  {
    seq(|ns|, i requires 0 <= i < |ns| => ShowNat(ns[i]))
  }

  lemma {:induction false} JoinedParameters(pieces: seq<string>)
    requires forall p :: p in pieces ==> AllDigits(p)
    ensures forall i :: 0 <= i < |Join(pieces, ";")| ==> SgrParameter(Join(pieces, ";")[i])
  {
    if |pieces| <= 1 {
      assert |pieces| == 1 ==> pieces[0] in pieces;
    } else {
      assert pieces[0] in pieces;
      forall p | p in pieces[1..] ensures AllDigits(p) {
        assert p in pieces;
      }
      JoinedParameters(pieces[1..]);
    }
  }

  lemma WithinSequence(e: string, text: string, rest: string)
    ensures var s := e + ("[" + (text + ("m" + rest))); s[|e| + 1..|e| + 1 + |text|] == text
  {
  }

  lemma JoinNotEmpty(pieces: seq<string>)
    requires |pieces| >= 1 && forall p :: p in pieces ==> p != ""
    ensures Join(pieces, ";") != ""
  {
    assert pieces[0] in pieces;
  }

  lemma ParamsText(e: string, text: string, rest: string)
    requires IsEscape(e) && forall i :: 0 <= i < |text| ==> SgrParameter(text[i])
    ensures var s := e + ("[" + (text + ("m" + rest)));
            SgrLength(s) > 0 && s[EscLength(s) + 1..SgrLength(s) - 1] == text
  {
    EscapeAt(e, "[" + (text + ("m" + rest)));
    SgrAt(e, text, rest);
    WithinSequence(e, text, rest);
    hide SgrLength, EscLength;
  }

  lemma NumeralsBack(ns: seq<nat>)
    ensures forall p :: p in Shown(ns) ==> IsNumeral(p) && ';' !in p
    ensures Numbers(Shown(ns)) == ns
  {
    var pieces := Shown(ns);
    forall p | p in pieces ensures IsNumeral(p) && ';' !in p {
      var i :| 0 <= i < |pieces| && pieces[i] == p;
    }
    forall i | 0 <= i < |ns| ensures NatOf(pieces[i]) == ns[i] {
      NatOfShowNat(ns[i]);
    }
  }

  /** The parameters of a sequence are the numbers written in it; a sequence with none means 0. */
  lemma ParamsWritten(e: string, ns: seq<nat>, rest: string)
    requires IsEscape(e) && |ns| >= 1
    ensures var s := e + ("[" + (Join(Shown(ns), ";") + ("m" + rest))); SgrLength(s) > 0 && Params(s) == ns
    ensures var s := e + ("[" + ("" + ("m" + rest))); SgrLength(s) > 0 && Params(s) == [0]
  {
    var pieces := Shown(ns);
    hide Numbers, Shown, Join, Split, SgrLength, EscLength;
    NumeralsBack(ns);
    JoinedParameters(pieces);
    JoinNotEmpty(pieces);
    SplitJoin(pieces, ';');
    ParamsText(e, Join(pieces, ";"), rest);
    ParamsText(e, "", rest);
  }

  /** A text without an escape character, in neither spelling. */
  predicate IsPlainText(s: string) {
    '\U{1B}' !in s && forall i :: 0 <= i <= |s| ==> !("\\u001b" <= s[i..])
  }

  lemma NothingEscaped(s: string)
    requires IsPlainText(s)
    ensures EscLength(s) == 0 && (s != "" ==> IsPlainText(s[1..]))
  {
    assert s[0..] == s;
    if s != "" {
      forall i | 0 <= i <= |s[1..]| ensures !("\\u001b" <= s[1..][i..]) {
        assert s[1..][i..] == s[i + 1..];
      }
    }
  }

  lemma {:induction false} NothingTakenOut(s: string, length: string -> nat)
    requires IsPlainText(s) && forall t :: EscLength(t) == 0 ==> length(t) == 0
    ensures Without(s, length) == s
  {
    NothingEscaped(s);
    hide IsPlainText, EscLength;
    if s == "" {
    } else {
      NothingTakenOut(s[1..], length);
    }
  }

  lemma NothingTaken(s: string)
    requires IsPlainText(s)
    ensures Without(s, OscLength) == s && Without(s, NonSgrLength) == s
  {
    NothingTakenOut(s, OscLength);
    NothingTakenOut(s, NonSgrLength);
  }

  /** There is nothing of an escape in the text, in neither spelling. */
  predicate IsHarmless(s: string) {
    forall i :: 0 <= i < |s| ==> s[i] != '\U{1B}' && s[i] != '\\'
  }

  lemma CharacterKept(c: char, s: string, rest: string, length: string -> nat)
    requires s != "" && s[0] == c && EscLength(s + rest) == 0
    requires forall t :: EscLength(t) == 0 ==> length(t) == 0
    ensures Without(s + rest, length) == [c] + Without(s[1..] + rest, length)
  {
    assert (s + rest)[1..] == s[1..] + rest;
    hide EscLength;
  }

  lemma Regrouped(c: char, s: string, rest: string)
    requires s != "" && s[0] == c
    ensures [c] + (s[1..] + rest) == s + rest
  {
  }

  lemma HarmlessStart(s: string, rest: string)
    requires s != "" && IsHarmless(s)
    ensures EscLength(s + rest) == 0
  {
    assert (s + rest)[0] == s[0];
  }

  lemma {:induction false} HarmlessKept(s: string, rest: string, length: string -> nat)
    requires IsHarmless(s) && forall t :: EscLength(t) == 0 ==> length(t) == 0
    ensures Without(s + rest, length) == s + Without(rest, length)
  {
    if s == "" {
      assert s + rest == rest;
    } else {
      HarmlessStart(s, rest);
      hide EscLength, Without;
      CharacterKept(s[0], s, rest, length);
      HarmlessKept(s[1..], rest, length);
      Regrouped(s[0], s, Without(rest, length));
    }
  }

  lemma SpelledOver(s: string, rest: string)
    requires "\\u001b" <= s + rest && 0 < |s|
    ensures "\\u001b" <= s || (rest != "" && (rest[0] == 'u' || rest[0] == '0' || rest[0] == '1' || rest[0] == 'b'))
  {
    var spelled := "\\u001b";
    if |s| >= 6 {
      assert s[..6] == (s + rest)[..6] == spelled;
    } else {
      assert rest[0] == (s + rest)[|s|] == spelled[|s|];
    }
  }

  /** An escape does not start in the plain text before one. */
  lemma PlainStart(s: string, e: string, rest: string)
    requires s != "" && IsPlainText(s) && IsEscape(e)
    ensures EscLength(s + (e + rest)) == 0
  {
    assert (s + (e + rest))[0] == s[0] && s[0] in s;
    assert s[0..] == s;
    if "\\u001b" <= s + (e + rest) {
      SpelledOver(s, e + rest);
    }
  }

  lemma {:induction false} PlainKept(s: string, e: string, rest: string, length: string -> nat)
    requires IsPlainText(s) && IsEscape(e) && forall t :: EscLength(t) == 0 ==> length(t) == 0
    ensures Without(s + (e + rest), length) == s + Without(e + rest, length)
  {
    if s == "" {
      assert s + (e + rest) == e + rest;
    } else {
      PlainStart(s, e, rest);
      NothingEscaped(s);
      hide EscLength, IsPlainText, IsEscape, Without;
      CharacterKept(s[0], s, e + rest, length);
      PlainKept(s[1..], e, rest, length);
      Regrouped(s[0], s, Without(e + rest, length));
    }
  }

  /** A plain text, unlike an escape sequence, is left alone, and keeps the style it is read in. */
  lemma {:induction false} PlainTextStays(s: string, style: Style, highContrast: bool)
    requires IsPlainText(s)
    ensures Cleaned(s) == s && StyledChars(s, style, highContrast) == Spread(s, BuildCssProperties(style))
  {
    NothingTaken(s);
    NothingEscaped(s);
    hide IsPlainText, BuildCssProperties;
    if s == "" {
    } else {
      PlainTextStays(s[1..], style, highContrast);
      SpreadStep(s, BuildCssProperties(style));
    }
  }

  lemma PlainParts(a: string, b: string)
    requires IsPlainText(a + b)
    ensures IsPlainText(a) && IsPlainText(b)
  {
    forall i | 0 <= i <= |a| ensures !("\\u001b" <= a[i..]) {
      assert (a + b)[i..] == a[i..] + b;
    }
    forall i | 0 <= i <= |b| ensures !("\\u001b" <= b[i..]) {
      assert (a + b)[|a| + i..] == b[i..];
    }
  }

  lemma TakenOut(x: string, rest: string, length: string -> nat)
    requires x != "" && length(x + rest) == |x|
    ensures Without(x + rest, length) == Without(rest, length)
  {
    assert (x + rest)[|x|..] == rest;
  }

  lemma CommandSplit(e: string, body: string, end: string, b: string)
    ensures e + ("]" + (body + (end + b))) == (e + ("]" + (body + end))) + b
  {
  }

  /** A command between plain texts is taken out. */
  lemma CommandRemoved(a: string, e: string, body: string, end: string, b: string)
    requires IsEscape(e) && (end == "\U{07}" || end == "\U{1B}\\") && IsPlainText(a + b)
    requires forall i :: 0 <= i < |body| ==> body[i] != '\U{07}' && body[i] != '\U{1B}'
    ensures Cleaned(a + (e + ("]" + (body + (end + b))))) == a + b
  {
    PlainParts(a, b);
    PlainKept(a, e, "]" + (body + (end + b)), OscLength);
    CommandAt(e, body, end, b);
    CommandSplit(e, body, end, b);
    TakenOut(e + ("]" + (body + end)), b, OscLength);
    NothingTaken(b);
    NothingTaken(a + b);
    hide OscLength, NonSgrLength, IsPlainText, Without, IsEscape;
  }

  lemma BracketSplit(e: string, params: string, last: char, b: string)
    ensures e + ("[" + (params + ([last] + b))) == (e + ("[" + (params + [last]))) + b
    ensures e != "" ==> e + ("[" + (params + ([last] + b))) == [e[0]] + ((e[1..] + ("[" + (params + [last]))) + b)
  {
  }

  lemma HarmlessTail(e: string, params: string, last: char)
    requires IsEscape(e) && IsHarmless(params) && IsHarmless([last])
    ensures IsHarmless(e[1..] + ("[" + (params + [last])))
  {
  }

  lemma FirstKept(c: char, s: string, length: string -> nat)
    requires length([c] + s) == 0
    ensures Without([c] + s, length) == [c] + Without(s, length)
  {
    assert ([c] + s)[1..] == s;
  }

  /** A bracket sequence between plain texts stays when nothing is to be taken out at its start. */
  lemma BracketStays(a: string, e: string, params: string, last: char, b: string, length: string -> nat)
    requires IsEscape(e) && IsPlainText(a) && IsPlainText(b)
    requires IsHarmless(params) && IsHarmless([last])
    requires length(e + ("[" + (params + ([last] + b)))) == 0
    requires forall t :: EscLength(t) == 0 ==> length(t) == 0
    ensures Without(a + (e + ("[" + (params + ([last] + b)))), length) == a + (e + ("[" + (params + ([last] + b))))
  {
    var rest := "[" + (params + ([last] + b));
    var tail := e[1..] + ("[" + (params + [last]));
    PlainKept(a, e, rest, length);
    BracketSplit(e, params, last, b);
    HarmlessTail(e, params, last);
    HarmlessKept(tail, b, length);
    NothingTakenOut(b, length);
    FirstKept(e[0], tail + b, length);
  }

  lemma NotACommand(e: string, rest: string)
    requires IsEscape(e)
    ensures OscLength(e + ("[" + rest)) == 0
  {
    EscapeAt(e, "[" + rest);
  }

  lemma LettersHarmless(params: string, last: char)
    requires forall i :: 0 <= i < |params| ==> IsDigit(params[i]) || params[i] == ';' || params[i] == '?'
    requires 'A' <= last <= 'Z' || 'a' <= last <= 'z'
    ensures IsHarmless(params) && IsHarmless([last])
  {
  }

  /** So is a control sequence that sets no style. */
  lemma ControlRemoved(a: string, e: string, params: string, last: char, b: string)
    requires IsEscape(e) && IsPlainText(a + b)
    requires forall i :: 0 <= i < |params| ==> IsDigit(params[i]) || params[i] == ';' || params[i] == '?'
    requires ('A' <= last <= 'Z' || 'a' <= last <= 'z') && last != 'm' && last != 'M'
    ensures Cleaned(a + (e + ("[" + (params + ([last] + b))))) == a + b
  {
    var rest := params + ([last] + b);
    PlainParts(a, b);
    LettersHarmless(params, last);
    NotACommand(e, rest);
    BracketStays(a, e, params, last, b, OscLength);
    PlainKept(a, e, "[" + rest, NonSgrLength);
    ControlAt(e, params, last, b);
    BracketSplit(e, params, last, b);
    TakenOut(e + ("[" + (params + [last])), b, NonSgrLength);
    NothingTaken(b);
    hide OscLength, NonSgrLength, IsPlainText, Without, IsEscape;
  }

  lemma PlainAhead(a: string, e: string, rest: string, i: nat)
    requires IsPlainText(a) && IsEscape(e) && i < |a|
    ensures SgrLength((a + (e + rest))[i..]) == 0
  {
    assert (a + (e + rest))[i..] == a[i..] + (e + rest);
    assert a == a[..i] + a[i..];
    PlainParts(a[..i], a[i..]);
    hide IsPlainText;
    PlainStart(a[i..], e, rest);
  }

  lemma PlainFirst(a: string, e: string, rest: string, highContrast: bool)
    requires IsPlainText(a) && IsEscape(e)
    ensures StyledChars(a + (e + rest), PLAIN, highContrast)
            == Spread(a, None) + StyledChars(e + rest, PLAIN, highContrast)
  {
    var s := a + (e + rest);
    forall i | 0 <= i < |a| ensures SgrLength(s[i..]) == 0 {
      PlainAhead(a, e, rest, i);
    }
    hide SgrLength, StyledChars, Spread, IsPlainText, IsEscape;
    PlainRun(s, 0, |a|, PLAIN, highContrast);
    assert s[0..] == s && s[0..|a|] == a && s[|a|..] == e + rest;
  }

  lemma SequenceRead(s: string, style: Style, highContrast: bool)
    requires SgrLength(s) > 0
    ensures StyledChars(s, style, highContrast)
            == StyledChars(s[SgrLength(s)..], Apply(style, Params(s), highContrast), highContrast)
  {
  }

  lemma ParametersHarmless(ns: seq<nat>)
    ensures var params := Join(Shown(ns), ";");
            IsHarmless(params) && forall i :: 0 <= i < |params| ==> SgrParameter(params[i])
  {
    NumeralsBack(ns);
    JoinedParameters(Shown(ns));
    hide Join, Shown;
  }

  /**
   Of two plain texts with a sequence of numbers between them, the first has no style and the second the one that the
   numbers give, and nothing is lost.
   */
  lemma StyledText(a: string, e: string, ns: seq<nat>, b: string, highContrast: bool)
    requires IsEscape(e) && IsPlainText(a) && IsPlainText(b) && |ns| >= 1
    ensures var s := a + (e + ("[" + (Join(Shown(ns), ";") + ("m" + b))));
            && Cleaned(s) == s
            && StyledChars(s, PLAIN, highContrast)
               == Spread(a, None) + Spread(b, BuildCssProperties(Apply(PLAIN, ns, highContrast)))
  {
    var params := Join(Shown(ns), ";");
    var rest := "[" + (params + ("m" + b));
    ParametersHarmless(ns);
    NotACommand(e, params + ("m" + b));
    ControlAt(e, params, 'm', b);
    BracketStays(a, e, params, 'm', b, OscLength);
    BracketStays(a, e, params, 'm', b, NonSgrLength);
    PlainFirst(a, e, rest, highContrast);
    hide StyledChars, IsPlainText, IsHarmless;
    ParamsWritten(e, ns, b);
    SequenceRead(e + rest, PLAIN, highContrast);
    SgrAt(e, params, b);
    BracketSplit(e, params, 'm', b);
    assert (e + rest)[SgrLength(e + rest)..] == b;
    PlainTextStays(b, Apply(PLAIN, ns, highContrast), highContrast);
  }
}
