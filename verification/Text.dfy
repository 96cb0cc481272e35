/**
 Strings as the modelled code uses them: searching for a character, splitting, joining, trimming.
 */
module Text {

  datatype Option<+T> = None | Some(value: T)

  function IndexOf(s: string, c: char): (i: nat)
    ensures i <= |s|
    ensures c !in s[..i]
    ensures i < |s| ==> s[i] == c
  {
    if s == [] || s[0] == c then 0 else 1 + IndexOf(s[1..], c)
  }

  lemma {:induction false} IndexOfPrefix(p: string, rest: string, c: char)
    requires c !in p
    requires rest != [] ==> rest[0] == c
    ensures IndexOf(p + rest, c) == |p|
  {
    if p == [] {
      assert p + rest == rest;
    } else {
      assert (p + rest)[1..] == p[1..] + rest;
      assert p[0] in p;
      IndexOfPrefix(p[1..], rest, c);
    }
  }

  /** The pieces of `s` between occurrences of `sep`. */
  function Split(s: string, sep: char): (parts: seq<string>)
    ensures |parts| >= 1
    ensures forall p :: p in parts ==> sep !in p
    decreases |s|
  {
    var i := IndexOf(s, sep);
    if i == |s| then [s] else [s[..i]] + Split(s[i + 1..], sep)
  }

  function Join(parts: seq<string>, sep: string): string {
    if |parts| == 0 then ""
    else if |parts| == 1 then parts[0]
    else parts[0] + sep + Join(parts[1..], sep)
  }

  /** Splitting undoes joining, for pieces free of the separator. */
  lemma {:induction false} SplitJoin(parts: seq<string>, sep: char)
    requires |parts| >= 1
    requires forall p :: p in parts ==> sep !in p
    ensures Split(Join(parts, [sep]), sep) == parts
  {
    var s := Join(parts, [sep]);
    assert sep !in parts[0] by { assert parts[0] in parts; }
    if |parts| == 1 {
      IndexOfPrefix(parts[0], [], sep);
      assert s + [] == s;
    } else {
      var rest := Join(parts[1..], [sep]);
      assert s == parts[0] + ([sep] + rest);
      IndexOfPrefix(parts[0], [sep] + rest, sep);
      assert s[..|parts[0]|] == parts[0];
      assert s[|parts[0]| + 1..] == rest;
      forall p | p in parts[1..] ensures sep !in p { assert p in parts; }
      SplitJoin(parts[1..], sep);
    }
  }

  function TrimLeft(s: string, space: char -> bool): (r: string)
    ensures |r| <= |s|
    ensures r != [] ==> !space(r[0])
  {
    if s != [] && space(s[0]) then TrimLeft(s[1..], space) else s
  }

  function TrimRight(s: string, space: char -> bool): (r: string)
    ensures |r| <= |s|
    ensures r != [] ==> !space(r[|r| - 1])
  {
    if s != [] && space(s[|s| - 1]) then TrimRight(s[..|s| - 1], space) else s
  }

  function Trim(s: string, space: char -> bool): string {
    TrimRight(TrimLeft(s, space), space)
  }

  /** The characters Go's unicode.IsSpace accepts. */
  predicate GoSpace(c: char) {
    c in {'\t', '\n', '\U{0B}', '\U{0C}', '\r', ' ', '\U{85}', '\U{A0}', '\U{1680}',
          '\U{2028}', '\U{2029}', '\U{202F}', '\U{205F}', '\U{3000}'}
    || '\U{2000}' <= c <= '\U{200A}'
  }

  /** strings.TrimSpace */
  function TrimSpace(s: string): string {
    Trim(s, GoSpace)
  }

  lemma {:induction false} TrimRightKeepsStart(s: string, space: char -> bool)
    ensures TrimRight(s, space) <= s
  {
    if s == [] || !space(s[|s| - 1]) {
    } else {
      TrimRightKeepsStart(s[..|s| - 1], space);
    }
  }

  lemma TrimSpaceKeeps(s: string)
    requires s != "" ==> !GoSpace(s[0]) && !GoSpace(s[|s| - 1])
    ensures TrimSpace(s) == s
  {
  }

  /** Trimming twice is trimming once. */
  lemma TrimSpaceOnce(s: string)
    ensures TrimSpace(TrimSpace(s)) == TrimSpace(s)
  {
    var left := TrimLeft(s, GoSpace);
    TrimRightKeepsStart(left, GoSpace);
    assert TrimSpace(s) == TrimRight(left, GoSpace);
    TrimSpaceKeeps(TrimSpace(s));
  }

  /** An optional text, trimmed; a blank one counts as absent. */
  function Present(text: Option<string>): Option<string> {
    if text.Some? && TrimSpace(text.value) != "" then Some(TrimSpace(text.value)) else None
  }
}
