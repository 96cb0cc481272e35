/**
 Secret placeholders of the form ${secrets.KEY} in configuration templates: extraction of the keys,
 substitution of values, and exactly which values keep substitution from creating new placeholders.
 */
module TemplateResolver {
  import opened Text

  const OPEN := "${secrets."

  predicate IsUpper(c: char) {
    'A' <= c <= 'Z'
  }

  predicate IsKeyChar(c: char) {
    IsUpper(c) || '0' <= c <= '9' || c == '_'
  }

  predicate ValidKey(key: string) {
    key != "" && IsUpper(key[0]) && forall i :: 0 <= i < |key| ==> IsKeyChar(key[i])
  }

  function Placeholder(key: string): (p: string)
    ensures p != "" && p[0] == '$'
  {
    OPEN + key + "}"
  }

  function KeyRun(s: string): (n: nat)
    ensures n <= |s|
    ensures forall i :: 0 <= i < n ==> IsKeyChar(s[i])
    ensures n < |s| ==> !IsKeyChar(s[n])
  {
    if s == "" || !IsKeyChar(s[0]) then 0 else 1 + KeyRun(s[1..])
  }

  /** The key of the match of the pattern at the start of `s`, if the pattern matches there. */
  function KeyAt(s: string): (r: Option<string>)
    ensures r.Some? ==> ValidKey(r.value) && Placeholder(r.value) <= s
  {
    if !(OPEN <= s) then None
    else
      var rest := s[|OPEN|..];
      var n := KeyRun(rest);
      if 0 < n < |rest| && IsUpper(rest[0]) && rest[n] == '}' then
        assert s == OPEN + rest[..n] + "}" + rest[n + 1..];
        Some(rest[..n])
      else None
  }

  lemma {:induction false} KeyRunOf(key: string, rest: string)
    requires key + "}" <= rest && forall i :: 0 <= i < |key| ==> IsKeyChar(key[i])
    ensures KeyRun(rest) == |key|
  {
    if key == "" {
    } else {
      assert (key + "}")[1..] == key[1..] + "}";
      KeyRunOf(key[1..], rest[1..]);
    }
  }

  lemma KeyAtPlaceholder(s: string, key: string)
    requires ValidKey(key) && Placeholder(key) <= s
    ensures KeyAt(s) == Some(key)
  {
    assert Placeholder(key) == OPEN + (key + "}");
    assert OPEN <= s && key + "}" <= s[|OPEN|..];
    var rest := s[|OPEN|..];
    KeyRunOf(key, rest);
    assert (key + "}")[|key|] == '}' && (key + "}")[0] == key[0];
    assert rest[..|key|] == (key + "}")[..|key|] == key;
  }

  /** FindAllStringSubmatch: the keys of the leftmost matches that do not overlap, in order. */
  function Keys(s: string): seq<string>
    decreases |s|
  {
    if s == "" then []
    else match KeyAt(s)
      case Some(key) => [key] + Keys(s[|Placeholder(key)|..])
      case None => Keys(s[1..])
  }

  function KeySet(s: string): set<string> {
    set key | key in Keys(s)
  }

  /** ResolveTemplatePlaceholders: each match whose key has a value is replaced by it, the rest stays. */
  function Resolve(s: string, secrets: map<string, string>): string
    decreases |s|
  {
    if s == "" then ""
    else match KeyAt(s)
      case Some(key) =>
        (if key in secrets then secrets[key] else Placeholder(key)) + Resolve(s[|Placeholder(key)|..], secrets)
      case None => [s[0]] + Resolve(s[1..], secrets)
  }

  // Partial placeholders.

  predicate IsPlaceholder(x: string) {
    |OPEN| < |x| && OPEN <= x && x[|x| - 1] == '}' && ValidKey(x[|OPEN|..|x| - 1])
  }

  function KeyOf(p: string): string
    requires IsPlaceholder(p)
  {
    p[|OPEN|..|p| - 1]
  }

  /** A beginning of a placeholder, not empty and not complete. */
  predicate IsPartial(x: string) {
    x != "" && (x <= OPEN || (OPEN <= x && ValidKey(x[|OPEN|..])))
  }

  /**
   Reads `v` after the partial placeholder `partial` (empty for none) has been read. None: a placeholder was
   completed on the way, other than those of `allowed` keys. Otherwise, what partial placeholder the text now
   ends in.
   */
  function Feed(partial: string, v: string, allowed: set<string>): Option<string>
    decreases |v|
  {
    if v == "" then Some(partial)
    else
      var next := partial + [v[0]];
      if IsPlaceholder(next) then (if KeyOf(next) in allowed then Feed("", v[1..], allowed) else None)
      else if IsPartial(next) then Feed(next, v[1..], allowed)
      else if v[0] == '$' then Feed("$", v[1..], allowed)
      else Feed("", v[1..], allowed)
  }

  /** Read in the middle of a key, the text leaves it before the key is closed. */
  predicate LeavesKey(v: string) {
    KeyRun(v) < |v| && v[KeyRun(v)] != '}'
  }

  /**
   A value that can be put anywhere: wherever in a placeholder the text before it may have stopped, the
   value completes no placeholder but those of allowed keys, and leaves none open. Eleven runs of Feed and
   one look at the start of the value decide it.
   */
  predicate Inert(v: string, allowed: set<string>) {
    LeavesKey(v) && forall j :: 0 <= j <= |OPEN| ==> Feed(OPEN[..j], v, allowed) == Some("")
  }

  lemma KeyStep(key: string, c: char)
    requires ValidKey(key)
    ensures var next := OPEN + key + [c];
            && (IsPlaceholder(next) <==> c == '}')
            && (IsPlaceholder(next) ==> KeyOf(next) == key)
            && (IsPartial(next) <==> IsKeyChar(c))
            && (IsKeyChar(c) ==> ValidKey(key + [c]) && next == OPEN + (key + [c]))
  {
    var next := OPEN + key + [c];
    assert next[|OPEN|..|next| - 1] == key;
    assert next[|OPEN|..] == key + [c];
    assert next[|next| - 1] == c;
    if ValidKey(key + [c]) {
      assert (key + [c])[|key|] == c;
    }
  }

  lemma OnlyDollarOpens(c: char)
    ensures IsPartial("" + [c]) <==> c == '$'
    ensures !IsPlaceholder("" + [c])
  {
    var x := "" + [c];
    assert x == [c] && OPEN[0] == '$';
    if c == '$' {
      assert x <= OPEN;
    }
  }

  /** A value that leaves keys is read in the middle of one as it is read in the open. */
  lemma {:induction false} KeyLeft(key: string, v: string, allowed: set<string>)
    requires ValidKey(key) && LeavesKey(v)
    ensures Feed(OPEN + key, v, allowed) == Feed("", v, allowed)
    decreases |v|
  {
    var c := v[0];
    KeyStep(key, c);
    OnlyDollarOpens(c);
    if IsKeyChar(c) {
      KeyLeft(key + [c], v[1..], allowed);
    } else if c == '$' {
      assert "" + [c] == "$";
    }
  }

  lemma InertEverywhere(v: string, partial: string, allowed: set<string>)
    requires Inert(v, allowed) && (partial == "" || IsPartial(partial))
    ensures Feed(partial, v, allowed) == Some("")
  {
    hide Feed;
    if partial <= OPEN {
      assert partial == OPEN[..|partial|];
    } else {
      assert partial == OPEN + partial[|OPEN|..];
      assert OPEN[..0] == "";
      KeyLeft(partial[|OPEN|..], v, allowed);
    }
  }

  /** An easily checked kind of inert value. */
  predicate IsPlain(v: string) {
    && '$' !in v && '}' !in v
    && exists i :: 0 <= i < |v| && !IsKeyChar(v[i]) && v[i] !in OPEN
  }

  lemma LastOfPartial(x: string)
    requires IsPartial(x)
    ensures var last := x[|x| - 1]; last != '}' && (last in OPEN || IsKeyChar(last))
  {
    if x <= OPEN {
      assert x[|x| - 1] == OPEN[|x| - 1];
    } else {
      assert x[|OPEN|..][|x| - 1 - |OPEN|] == x[|x| - 1];
    }
  }

  lemma {:induction false} PlainIdle(v: string, allowed: set<string>)
    requires '$' !in v
    ensures Feed("", v, allowed) == Some("")
  {
    if v == "" {
    } else {
      assert v[0] in v;
      OnlyDollarOpens(v[0]);
      PlainIdle(v[1..], allowed);
    }
  }

  lemma {:induction false} PlainFed(partial: string, v: string, i: nat, allowed: set<string>)
    requires partial == "" || IsPartial(partial)
    requires '$' !in v && '}' !in v && i < |v| && !IsKeyChar(v[i]) && v[i] !in OPEN
    ensures Feed(partial, v, allowed) == Some("")
    decreases |v|
  {
    var next := partial + [v[0]];
    assert next[|next| - 1] == v[0];
    assert v[0] in v;
    if i > 0 {
      PlainFed(if IsPartial(next) then next else "", v[1..], i - 1, allowed);
    } else {
      if IsPartial(next) {
        LastOfPartial(next);
      }
      PlainIdle(v[1..], allowed);
    }
  }

  lemma PlainIsInert(v: string, allowed: set<string>)
    requires IsPlain(v)
    ensures Inert(v, allowed)
  {
    var i :| 0 <= i < |v| && !IsKeyChar(v[i]) && v[i] !in OPEN;
    var n := KeyRun(v);
    assert n <= i;
    assert v[n] in v;
    forall j | 0 <= j <= |OPEN| ensures Feed(OPEN[..j], v, allowed) == Some("") {
      PlainFed(OPEN[..j], v, i, allowed);
    }
  }

  // Matches and partial placeholders.

  /** A placeholder that starts with a partial placeholder goes on from it: every piece of it is partial. */
  lemma PlaceholderPieces(p: string, n: nat)
    requires IsPlaceholder(p) && n <= |p|
    ensures n < |p| ==> p[..n] == "" || IsPartial(p[..n])
    ensures forall i :: 0 < i < |p| ==> p[i] != '$'
    ensures IsPartial(p[..n]) ==> n < |p|
  {
    var key := p[|OPEN|..|p| - 1];
    if |OPEN| < n < |p| {
      assert p[..n][|OPEN|..] == key[..n - |OPEN|];
    }
    forall i | 0 < i < |p| ensures p[i] != '$' {
      if i < |OPEN| {
        assert p[i] == OPEN[i];
      } else if i < |p| - 1 {
        assert p[i] == key[i - |OPEN|];
      }
    }
    if n == |p| {
      assert p[..n] == p;
      if IsPartial(p) {
        LastOfPartial(p);
      }
    }
  }

  lemma PlaceholderText(p: string)
    requires IsPlaceholder(p)
    ensures p == Placeholder(KeyOf(p)) && ValidKey(KeyOf(p))
  {
    assert p == p[..|OPEN|] + KeyOf(p) + [p[|p| - 1]];
  }

  lemma MatchIsPlaceholder(s: string)
    ensures KeyAt(s).Some? <==> exists n :: 0 <= n <= |s| && IsPlaceholder(s[..n])
    ensures KeyAt(s).Some? ==> s[0] == '$'
  {
    if KeyAt(s).Some? {
      var key := KeyAt(s).value;
      var n := |Placeholder(key)|;
      assert s[..n] == Placeholder(key);
      assert Placeholder(key)[|OPEN|..n - 1] == key;
      assert IsPlaceholder(s[..n]);
    }
    if n :| 0 <= n <= |s| && IsPlaceholder(s[..n]) {
      PlaceholderText(s[..n]);
      KeyAtPlaceholder(s, KeyOf(s[..n]));
    }
  }

  /** No match starts the text, or the match of an allowed key. */
  predicate Quiet(s: string, allowed: set<string>) {
    KeyAt(s).Some? ==> KeyAt(s).value in allowed
  }

  lemma PartialPieces(x: string, n: nat)
    requires IsPartial(x) && 0 < n <= |x|
    ensures IsPartial(x[..n])
  {
    if |OPEN| < n {
      assert x[..n][|OPEN|..] == x[|OPEN|..][..n - |OPEN|];
    }
  }

  lemma PrefixClash(p: string, next: string)
    requires IsPlaceholder(p) && |next| >= 2 && IsPartial(next[..|next| - 1])
    ensures p <= next ==> p == next
    ensures next <= p ==> p == next || IsPartial(next)
  {
    var stem := next[..|next| - 1];
    if p <= stem {
      PartialPieces(stem, |p|);
      assert stem[..|p|] == p;
      LastOfPartial(p);
    }
    if next <= p {
      PlaceholderPieces(p, |next|);
      assert p[..|next|] == next;
    }
  }

  lemma DeadEnd(next: string, x: string)
    requires |next| >= 2 && IsPartial(next[..|next| - 1]) && !IsPartial(next) && !IsPlaceholder(next)
    ensures KeyAt(next + x) == None
  {
    var s := next + x;
    MatchIsPlaceholder(s);
    if n :| 0 <= n <= |s| && IsPlaceholder(s[..n]) {
      var p := s[..n];
      assert if n <= |next| then p == next[..n] else next == p[..|next|];
      PrefixClash(p, next);
    }
  }

  /**
   A text that reads as idle after a partial placeholder does not complete it, whatever follows, but to an
   allowed one.
   */
  lemma {:induction false} FedAway(partial: string, v: string, x: string, allowed: set<string>)
    requires IsPartial(partial) && Feed(partial, v, allowed) == Some("")
    ensures Quiet(partial + (v + x), allowed)
    decreases |v|
  {
    hide KeyAt, ValidKey;
    var s := partial + (v + x);
    assert v != "";
    var next := partial + [v[0]];
    assert s == next + (v[1..] + x);
    if IsPlaceholder(next) {
      PlaceholderText(next);
      KeyAtPlaceholder(s, KeyOf(next));
    } else if IsPartial(next) {
      FedAway(next, v[1..], x, allowed);
    } else {
      DeadEnd(next, v[1..] + x);
    }
  }

  // Substitution and extraction.

  lemma Unmatched(s: string, m: map<string, string>)
    requires s != "" && KeyAt(s) == None
    ensures Keys(s) == Keys(s[1..]) && Resolve(s, m) == [s[0]] + Resolve(s[1..], m)
  {
  }

  lemma MatchKept(s: string, key: string, m: map<string, string>)
    requires s != "" && KeyAt(s) == Some(key) && key !in m
    ensures Placeholder(key) <= s && s == Placeholder(key) + s[|Placeholder(key)|..]
    ensures Resolve(s, m) == Placeholder(key) + Resolve(s[|Placeholder(key)|..], m)
  {
    hide KeyAt, Placeholder;
  }

  lemma NoDollarInside(key: string)
    requires ValidKey(key)
    ensures Placeholder(key) != "" && '$' !in Placeholder(key)[1..]
  {
    var p := Placeholder(key);
    assert p[|OPEN|..|p| - 1] == key;
    PlaceholderPieces(p, 0);
  }

  lemma HeadOff(p: string, x: string)
    requires p != ""
    ensures p + x == [p[0]] + (p[1..] + x)
    ensures (p + x)[0] == p[0] && (p + x)[1..] == p[1..] + x
  {
    assert p == [p[0]] + p[1..];
  }

  lemma {:induction false} NoDollar(y: string, x: string, m: map<string, string>)
    requires '$' !in y
    ensures Keys(y + x) == Keys(x) && Resolve(y + x, m) == y + Resolve(x, m)
    decreases |y|
  {
    hide KeyAt, ValidKey, Keys, Resolve;
    if y == "" {
      assert y + x == x;
    } else {
      MatchIsPlaceholder(y + x);
      assert y[0] in y;
      forall c | c in y[1..] ensures c in y {
      }
      NoDollar(y[1..], x, m);
      Unmatched(y + x, m);
      HeadOff(y, x);
      HeadOff(y, Resolve(x, m));
    }
  }

  lemma MatchSkipped(s: string, key: string, m: map<string, string>)
    requires s != "" && KeyAt(s) == Some(key) && key !in m
    ensures Resolve(s, m) == [s[0]] + Resolve(s[1..], m)
  {
    hide *;
    var p := Placeholder(key);
    var rest := s[|p|..];
    NoDollarInside(key);
    MatchKept(s, key, m);
    NoDollar(p[1..], rest, m);
    HeadOff(p, rest);
    HeadOff(p, Resolve(rest, m));
  }

  /** An allowed match at the start is left to the scan of the rest, when no allowed key has a value. */
  lemma QuietStep(s: string, m: map<string, string>, allowed: set<string>)
    requires s != "" && Quiet(s, allowed) && allowed !! m.Keys
    ensures Resolve(s, m) == [s[0]] + Resolve(s[1..], m)
  {
    if KeyAt(s).Some? {
      MatchSkipped(s, KeyAt(s).value, m);
    }
  }

  lemma NoInnerDollar(x: string)
    requires IsPartial(x)
    ensures |x| > 1 ==> x[|x| - 1] != '$'
  {
    if |x| > 1 {
      var i := |x| - 1;
      if i < |OPEN| {
        assert x[i] == OPEN[i];
      } else {
        assert x[i] == x[|OPEN|..][i - |OPEN|];
      }
    }
  }

  /** A dollar sign always starts over. */
  lemma DollarStarts(partial: string)
    requires partial == "" || IsPartial(partial)
    ensures IsPartial("$")
    ensures IsPartial(partial + "$") <==> partial == ""
  {
    OnlyDollarOpens('$');
    assert "" + "$" == "$";
    var next := partial + "$";
    if partial != "" && IsPartial(next) {
      NoInnerDollar(next);
    }
  }

  /** The first character of a text that reads as idle, whatever follows; its tail reads as idle from `next`. */
  lemma QuietHead(partial: string, v: string, x: string, allowed: set<string>) returns (next: string)
    requires partial == "" || IsPartial(partial)
    requires v != "" && Feed(partial, v, allowed) == Some("")
    ensures Quiet(v + x, allowed)
    ensures next == "" || IsPartial(next)
    ensures Feed(next, v[1..], allowed) == Some("")
  {
    hide KeyAt, ValidKey;
    next := partial + [v[0]];
    MatchIsPlaceholder(v + x);
    if v[0] == '$' {
      assert next == partial + "$" && "" + "$" == "$";
      DollarStarts(partial);
      assert next[|next| - 1] == '$';
      next := "$";
      FedAway("$", v[1..], x, allowed);
      assert v + x == "$" + (v[1..] + x);
    } else if !IsPartial(next) || IsPlaceholder(next) {
      next := "";
    }
  }

  /** What follows an inert value is scanned as if the value were not there. */
  lemma {:induction false} QuietValue(partial: string, v: string, x: string)
    requires partial == "" || IsPartial(partial)
    requires Feed(partial, v, {}) == Some("")
    ensures Keys(v + x) == Keys(x)
    decreases |v|
  {
    hide Feed, KeyAt, IsPartial;
    if v == "" {
      assert v + x == x;
    } else {
      var next := QuietHead(partial, v, x, {});
      QuietValue(next, v[1..], x);
      assert (v + x)[1..] == v[1..] + x;
    }
  }

  /** An inert value stays as it is when what follows is resolved, if no allowed key has a value. */
  lemma {:induction false} QuietValueStays(partial: string, v: string, x: string, m: map<string, string>,
                                           allowed: set<string>)
    requires partial == "" || IsPartial(partial)
    requires Feed(partial, v, allowed) == Some("") && allowed !! m.Keys
    ensures Resolve(v + x, m) == v + Resolve(x, m)
    decreases |v|
  {
    hide Feed, KeyAt, IsPartial, Resolve, Keys, Quiet;
    if v == "" {
      assert v + x == x;
    } else {
      var next := QuietHead(partial, v, x, allowed);
      QuietValueStays(next, v[1..], x, m, allowed);
      QuietStep(v + x, m, allowed);
      HeadOff(v, x);
      HeadOff(v, Resolve(x, m));
    }
  }

  ghost predicate AllInert(secrets: map<string, string>, allowed: set<string>) {
    forall key :: key in secrets && ValidKey(key) ==> Inert(secrets[key], allowed)
  }

  /** What a match at the start and the rest become. */
  function AfterMatch(s: string, m: map<string, string>, key: string): string
    requires Placeholder(key) <= s
  {
    (if key in m then m[key] else Placeholder(key)) + Resolve(s[|Placeholder(key)|..], m)
  }

  lemma DollarEnds(partial: string, x: string)
    requires IsPartial(partial)
    ensures KeyAt(partial + "$" + x) == None
  {
    var next := partial + "$";
    DollarStarts(partial);
    assert next[..|next| - 1] == partial;
    assert !IsPlaceholder(next) by { assert next[|next| - 1] == '$'; }
    DeadEnd(next, x);
  }

  lemma MatchInside(partial: string, s: string, m: map<string, string>, allowed: set<string>)
    requires AllInert(m, allowed) && IsPartial(partial) && KeyAt(s).Some?
    ensures Quiet(partial + AfterMatch(s, m, KeyAt(s).value), allowed)
  {
    hide KeyAt, ValidKey, IsPartial, IsPlaceholder, Inert, Resolve;
    var key := KeyAt(s).value;
    var rest := Resolve(s[|Placeholder(key)|..], m);
    if key in m {
      InertEverywhere(m[key], partial, allowed);
      FedAway(partial, m[key], rest, allowed);
    } else {
      var p := Placeholder(key);
      assert p == "$" + p[1..];
      assert partial + (p + rest) == partial + "$" + (p[1..] + rest);
      DollarEnds(partial, p[1..] + rest);
    }
  }

  lemma StaysDead(partial: string, s: string, x: string)
    requires IsPartial(partial) && s != "" && KeyAt(partial + s) == None && !IsPartial(partial + [s[0]])
    ensures KeyAt(partial + [s[0]] + x) == None
  {
    hide KeyAt, ValidKey, IsPlaceholder;
    var next := partial + [s[0]];
    MatchIsPlaceholder(partial + s);
    assert (partial + s)[..|next|] == next;
    assert next[..|next| - 1] == partial;
    DeadEnd(next, x);
  }

  /**
   Substituting inert values after a partial placeholder that the text does not complete does not complete it
   either.
   */
  lemma {:induction false} NoNewMatch(partial: string, s: string, m: map<string, string>, allowed: set<string>)
    requires AllInert(m, allowed) && IsPartial(partial) && KeyAt(partial + s) == None
    ensures Quiet(partial + Resolve(s, m), allowed)
    decreases |s|
  {
    hide KeyAt, ValidKey, IsPartial, IsPlaceholder, Inert, Placeholder;
    if s == "" {
    } else if KeyAt(s).Some? {
      assert AfterMatch(s, m, KeyAt(s).value) == Resolve(s, m);
      MatchInside(partial, s, m, allowed);
    } else {
      var next := partial + [s[0]];
      assert partial + s == next + s[1..];
      assert partial + Resolve(s, m) == next + Resolve(s[1..], m);
      if IsPartial(next) {
        NoNewMatch(next, s[1..], m, allowed);
      } else {
        StaysDead(partial, s, Resolve(s[1..], m));
      }
    }
  }

  /** The keys of `keys` that have no value, in order. */
  function Without(keys: seq<string>, m: map<string, string>): (r: seq<string>)
    ensures forall key :: key in r <==> key in keys && key !in m
  {
    if keys == [] then [] else (if keys[0] in m then [] else [keys[0]]) + Without(keys[1..], m)
  }

  /** Where the template has no match, it has none after inert values are put in, but of allowed keys. */
  lemma UnmatchedStays(s: string, m: map<string, string>, allowed: set<string>)
    requires AllInert(m, allowed) && s != "" && KeyAt(s) == None
    ensures Quiet([s[0]] + Resolve(s[1..], m), allowed)
  {
    hide KeyAt, Resolve, AllInert;
    MatchIsPlaceholder([s[0]] + Resolve(s[1..], m));
    if s[0] == '$' {
      assert s == "$" + s[1..];
      DollarStarts("");
      NoNewMatch("$", s[1..], m, allowed);
    }
  }

  /** After a match whose key has no value, the scan goes on as before. */
  lemma KeptMatch(key: string, rest: string)
    requires ValidKey(key)
    ensures var p := Placeholder(key); KeyAt(p + rest) == Some(key) && p + rest != "" && (p + rest)[|p|..] == rest
  {
    var p := Placeholder(key);
    assert p <= p + rest;
    KeyAtPlaceholder(p + rest, key);
  }

  /** After inert values are substituted, the keys left are the original ones without those that had values. */
  lemma {:induction false} ResolvedKeys(s: string, m: map<string, string>)
    requires AllInert(m, {})
    ensures Keys(Resolve(s, m)) == Without(Keys(s), m)
    decreases |s|
  {
    hide KeyAt, ValidKey, Inert, Feed, Placeholder;
    if s == "" {
    } else {
      match KeyAt(s)
      case Some(key) =>
        var n := |Placeholder(key)|;
        var rest := Resolve(s[n..], m);
        ResolvedKeys(s[n..], m);
        assert Keys(s) == [key] + Keys(s[n..]);
        if key in m {
          InertEverywhere(m[key], "", {});
          QuietValue("", m[key], rest);
        } else {
          KeptMatch(key, rest);
        }
      case None =>
        var r := [s[0]] + Resolve(s[1..], m);
        ResolvedKeys(s[1..], m);
        UnmatchedStays(s, m, {});
        assert r[1..] == Resolve(s[1..], m);
    }
  }

  /**
   Resolving in two stages is resolving once, when the first stage's values make no placeholder but of keys
   that stage knows.
   */
  lemma {:induction false} StagedResolution(s: string, m: map<string, string>, m': map<string, string>)
    requires AllInert(m, m.Keys) && m.Keys !! m'.Keys
    ensures Resolve(Resolve(s, m), m') == Resolve(s, m + m')
    decreases |s|
  {
    hide KeyAt, ValidKey, Inert, Feed, Placeholder, Quiet;
    if s == "" {
    } else {
      match KeyAt(s)
      case Some(key) =>
        var n := |Placeholder(key)|;
        var rest := Resolve(s[n..], m);
        StagedResolution(s[n..], m, m');
        if key in m {
          InertEverywhere(m[key], "", m.Keys);
          QuietValueStays("", m[key], rest, m', m.Keys);
        } else {
          KeptMatch(key, rest);
        }
      case None =>
        var r := [s[0]] + Resolve(s[1..], m);
        StagedResolution(s[1..], m, m');
        UnmatchedStays(s, m, m.Keys);
        QuietStep(r, m', m.Keys);
        assert r[1..] == Resolve(s[1..], m);
    }
  }

  // What substitution is, on the text around a placeholder and on plain text.

  lemma DollarInside(p: string, a: string, x: string)
    requires 0 < |a| < |p| && x != "" && x[0] == '$' && p <= a + x
    ensures '$' in p[1..]
  {
    assert p[1..][|a| - 1] == (a + x)[|a|];
  }

  /** A match does not reach over a dollar sign. */
  lemma MatchBefore(a: string, rest: string)
    requires a != "" && rest != "" && rest[0] == '$'
    ensures KeyAt(a + rest) == KeyAt(a)
  {
    match KeyAt(a)
    case Some(first) => KeyAtPlaceholder(a + rest, first);
    case None =>
      if KeyAt(a + rest).Some? {
        var p := Placeholder(KeyAt(a + rest).value);
        if |p| <= |a| {
          assert p <= a;
          KeyAtPlaceholder(a, KeyAt(a + rest).value);
        } else {
          DollarInside(p, a, rest);
          NoDollarInside(KeyAt(a + rest).value);
        }
      }
  }

  lemma PlaceholderFirst(key: string, b: string, m: map<string, string>)
    requires ValidKey(key)
    ensures Keys(Placeholder(key) + b) == [key] + Keys(b)
    ensures Resolve(Placeholder(key) + b, m) == (if key in m then m[key] else Placeholder(key)) + Resolve(b, m)
  {
    var s := Placeholder(key) + b;
    assert Placeholder(key) <= s && s[|Placeholder(key)|..] == b;
    KeyAtPlaceholder(s, key);
  }

  /** How much of a text the first step takes, and what it turns it into. */
  function HeadLength(s: string): (n: nat)
    requires s != ""
    ensures 1 <= n <= |s|
  {
    if KeyAt(s).Some? then |Placeholder(KeyAt(s).value)| else 1
  }

  function HeadKeys(s: string): seq<string>
    requires s != ""
  {
    if KeyAt(s).Some? then [KeyAt(s).value] else []
  }

  function HeadText(s: string, m: map<string, string>): string
    requires s != ""
  {
    match KeyAt(s)
    case Some(key) => if key in m then m[key] else Placeholder(key)
    case None => [s[0]]
  }

  lemma FirstStep(s: string, m: map<string, string>)
    requires s != ""
    ensures Keys(s) == HeadKeys(s) + Keys(s[HeadLength(s)..])
    ensures Resolve(s, m) == HeadText(s, m) + Resolve(s[HeadLength(s)..], m)
  {
    hide KeyAt, Placeholder;
  }

  lemma SameHead(a: string, rest: string, m: map<string, string>)
    requires a != "" && rest != "" && rest[0] == '$'
    ensures HeadKeys(a + rest) == HeadKeys(a) && HeadText(a + rest, m) == HeadText(a, m)
    ensures HeadLength(a + rest) == HeadLength(a)
    ensures (a + rest)[HeadLength(a)..] == a[HeadLength(a)..] + rest
  {
    MatchBefore(a, rest);
    hide KeyAt, Placeholder;
  }

  lemma Joined<T>(a: seq<T>, b: seq<T>, c: seq<T>)
    ensures a + (b + c) == (a + b) + c
  {
  }

  /** A text can be cut before any dollar sign: both parts are dealt with as if each stood alone. */
  lemma {:induction false} CutBeforeDollar(a: string, rest: string, m: map<string, string>)
    requires rest != "" && rest[0] == '$'
    ensures Keys(a + rest) == Keys(a) + Keys(rest) && Resolve(a + rest, m) == Resolve(a, m) + Resolve(rest, m)
    decreases |a|
  {
    if a == "" {
      assert a + rest == rest;
    } else {
      hide *;
      var tail := a[HeadLength(a)..];
      SameHead(a, rest, m);
      FirstStep(a, m);
      FirstStep(a + rest, m);
      CutBeforeDollar(tail, rest, m);
      Joined(HeadKeys(a), Keys(tail), Keys(rest));
      Joined(HeadText(a, m), Resolve(tail, m), Resolve(rest, m));
    }
  }

  lemma AroundPlaceholder(a: string, key: string, b: string, m: map<string, string>, value: string)
    requires ValidKey(key) && value == if key in m then m[key] else Placeholder(key)
    ensures Keys(a + (Placeholder(key) + b)) == Keys(a) + [key] + Keys(b)
    ensures Resolve(a + (Placeholder(key) + b), m) == Resolve(a, m) + value + Resolve(b, m)
  {
    hide ValidKey, Keys, Resolve;
    HeadOff(Placeholder(key), b);
    hide Placeholder;
    CutBeforeDollar(a, Placeholder(key) + b, m);
    PlaceholderFirst(key, b, m);
    Joined(Keys(a), [key], Keys(b));
    Joined(Resolve(a, m), value, Resolve(b, m));
  }

  /**
   Wherever a placeholder with a well-formed key stands, its key is extracted there, and it is replaced by the key's
   value, if there is one; what stands around it is dealt with as if it stood alone.
   */
  lemma ResolveAround(a: string, key: string, b: string, m: map<string, string>)
    requires ValidKey(key)
    ensures var p := "${secrets." + key + "}";
            && Keys(a + (p + b)) == Keys(a) + [key] + Keys(b)
            && Resolve(a + (p + b), m) == Resolve(a, m) + (if key in m then m[key] else p) + Resolve(b, m)
  {
    AroundPlaceholder(a, key, b, m, if key in m then m[key] else Placeholder(key));
    assert Placeholder(key) == "${secrets." + key + "}";
    hide *;
  }

  /** A text of whose keys none has a value stays as it is. */
  lemma {:induction false} ResolveIdle(s: string, m: map<string, string>)
    requires forall key :: key in Keys(s) ==> key !in m
    ensures Resolve(s, m) == s
    decreases |s|
  {
    hide KeyAt, Placeholder;
    if s == "" {
    } else {
      var n := if KeyAt(s).Some? then |Placeholder(KeyAt(s).value)| else 1;
      forall key | key in Keys(s[n..]) ensures key in Keys(s) {
      }
      if KeyAt(s).Some? {
        assert KeyAt(s).value in Keys(s);
      }
      ResolveIdle(s[n..], m);
    }
  }

  // The converse: a value that is not inert lets some template grow a placeholder.

  function LongKey(n: nat): (key: string)
    ensures |key| == n && forall i :: 0 <= i < n ==> key[i] == 'A'
  {
    seq(n, _ => 'A')
  }

  /** Longer than all of some keys. */
  lemma {:induction false} LongerThanAll(keys: set<string>) returns (n: nat)
    ensures n > 0 && forall key :: key in keys ==> |key| < n
    decreases keys
  {
    n := 1;
    if keys == {} {
    } else {
      var key :| key in keys;
      n := LongerThanAll(keys - {key});
      n := if n <= |key| then |key| + 1 else n;
    }
  }

  /** How a partial placeholder can be completed with a key of at least n characters. */
  function Completion(partial: string, n: nat): (x: string)
    requires IsPartial(partial)
  {
    (if partial <= OPEN then OPEN[|partial|..] else "") + LongKey(n) + "}"
  }

  lemma CompletionCompletes(partial: string, n: nat)
    requires IsPartial(partial) && n > 0
    ensures IsPlaceholder(partial + Completion(partial, n)) && |KeyOf(partial + Completion(partial, n))| >= n
    ensures '$' !in Completion(partial, n)
  {
    var x := Completion(partial, n);
    var p := partial + x;
    if partial <= OPEN {
      assert p == OPEN + LongKey(n) + "}";
      assert p[|OPEN|..|p| - 1] == LongKey(n);
      forall i | 0 <= i < |x| ensures x[i] != '$' {
        assert x[i] == p[|partial| + i];
        assert |partial| + i < |OPEN| ==> x[i] == OPEN[|partial| + i];
      }
    } else {
      assert p == partial + LongKey(n) + "}";
      assert p[|OPEN|..|p| - 1] == partial[|OPEN|..] + LongKey(n);
    }
  }

  lemma WholeAtStart(key: string, x: string, m: map<string, string>)
    requires ValidKey(key) && key in m
    ensures Keys(Placeholder(key) + x) == [key] + Keys(x)
    ensures Resolve(Placeholder(key) + x, m) == m[key] + Resolve(x, m)
  {
    var z := Placeholder(key) + x;
    assert Placeholder(key) <= z && z[|Placeholder(key)|..] == x;
    KeyAtPlaceholder(z, key);
  }

  /** No match starts with the partial placeholder, and the rest of it holds no dollar sign. */
  lemma PartialSkipped(partial: string, key: string, x: string)
    requires IsPartial(partial)
    ensures KeyAt(partial + (Placeholder(key) + x)) == None
    ensures '$' !in partial[1..]
  {
    var p := Placeholder(key);
    assert p == "$" + p[1..];
    assert partial + (p + x) == partial + "$" + (p[1..] + x);
    DollarEnds(partial, p[1..] + x);
    forall i | 0 < i < |partial| ensures partial[i] != '$' {
      PartialPieces(partial, i + 1);
      NoInnerDollar(partial[..i + 1]);
    }
  }

  /** Of a partial placeholder and a whole one after it, only the whole one is a match. */
  lemma WholeAfterPartial(partial: string, key: string, x: string, m: map<string, string>)
    requires partial == "" || IsPartial(partial)
    requires ValidKey(key) && key in m
    ensures Keys(partial + (Placeholder(key) + x)) == [key] + Keys(x)
    ensures Resolve(partial + (Placeholder(key) + x), m) == partial + (m[key] + Resolve(x, m))
  {
    var z := Placeholder(key) + x;
    WholeAtStart(key, x, m);
    if partial == "" {
      assert partial + z == z;
      assert partial + (m[key] + Resolve(x, m)) == m[key] + Resolve(x, m);
    } else {
      PartialSkipped(partial, key, x);
      hide *;
      Unmatched(partial + z, m);
      HeadOff(partial, z);
      NoDollar(partial[1..], z, m);
      HeadOff(partial, m[key] + Resolve(x, m));
    }
  }

  /** A match at place `i`, of a key that is not allowed. */
  predicate HasMatch(w: string, i: nat, allowed: set<string>) {
    i <= |w| && KeyAt(w[i..]).Some? && KeyAt(w[i..]).value !in allowed
  }

  lemma StartsWithMatch(p: string, x: string, allowed: set<string>)
    requires IsPlaceholder(p) && KeyOf(p) !in allowed
    ensures HasMatch(p + x, 0, allowed)
  {
    var w := p + x;
    assert w[0..] == w && p <= w;
    PlaceholderText(p);
    KeyAtPlaceholder(w, KeyOf(p));
  }

  lemma LaterMatch(a: string, w: string, j: nat, allowed: set<string>)
    requires HasMatch(w, j, allowed)
    ensures HasMatch(a + w, |a| + j, allowed)
  {
    assert (a + w)[|a| + j..] == w[j..];
  }

  /** A character changes over from the second text to the first. */
  lemma HeadOver(a: string, v: string, x: string)
    requires v != ""
    ensures a + (v + x) == (a + [v[0]]) + (v[1..] + x)
  {
  }

  /**
   If reading `v` after `partial` completes a placeholder of a key that is not allowed, or leaves one open
   that `x` completes with a long key, there is a match of such a key.
   */
  lemma {:induction false} MatchGrows(partial: string, v: string, x: string, allowed: set<string>, n: nat)
    returns (i: nat)
    requires partial == "" || IsPartial(partial)
    requires Feed(partial, v, allowed) != Some("")
    requires n > 0 && forall key :: key in allowed ==> |key| < n
    requires Feed(partial, v, allowed).Some? ==>
               IsPartial(Feed(partial, v, allowed).value) && x == Completion(Feed(partial, v, allowed).value, n)
    ensures HasMatch(partial + (v + x), i, allowed)
    decreases |v|
  {
    hide HasMatch, ValidKey, IsPlaceholder, IsPartial, Completion, KeyOf;
    if v == "" {
      i := 0;
      assert partial + (v + x) == partial + x;
      CompletionCompletes(partial, n);
      assert partial + x == (partial + x) + "";
      StartsWithMatch(partial + x, "", allowed);
    } else {
      var next := partial + [v[0]];
      var rest := v[1..] + x;
      HeadOver(partial, v, x);
      if IsPlaceholder(next) && KeyOf(next) !in allowed {
        i := 0;
        StartsWithMatch(next, rest, allowed);
      } else if IsPartial(next) && !IsPlaceholder(next) {
        i := MatchGrows(next, v[1..], x, allowed, n);
      } else if v[0] == '$' && !IsPlaceholder(next) {
        OnlyDollarOpens('$');
        assert "" + ['$'] == "$";
        var j := MatchGrows("$", v[1..], x, allowed, n);
        i := |partial| + j;
        assert next + rest == partial + ("$" + rest);
        LaterMatch(partial, "$" + rest, j, allowed);
      } else {
        var j := MatchGrows("", v[1..], x, allowed, n);
        i := |next| + j;
        assert "" + rest == rest;
        LaterMatch(next, rest, j, allowed);
      }
    }
  }

  lemma {:induction false} FedIsPartial(partial: string, v: string, allowed: set<string>)
    requires partial == "" || IsPartial(partial)
    ensures var fed := Feed(partial, v, allowed); fed.Some? ==> fed.value == "" || IsPartial(fed.value)
    decreases |v|
  {
    hide IsPlaceholder;
    if v == "" {
    } else {
      var next := partial + [v[0]];
      OnlyDollarOpens('$');
      assert "" + ['$'] == "$";
      var from := if IsPlaceholder(next) then "" else if IsPartial(next) then next else if v[0] == '$' then "$" else "";
      FedIsPartial(from, v[1..], allowed);
    }
  }

  lemma EmptyText(m: map<string, string>)
    ensures Keys("") == [] && Resolve("", m) == ""
  {
  }

  /** A value that does not leave keys fails after a key longer than all allowed ones. */
  lemma {:induction false} KeyStaysOpen(key: string, v: string, allowed: set<string>)
    requires ValidKey(key) && !LeavesKey(v) && forall other :: other in allowed ==> |other| < |key|
    ensures Feed(OPEN + key, v, allowed) != Some("")
    decreases |v|
  {
    if v == "" {
      assert OPEN + key != "";
    } else {
      KeyStep(key, v[0]);
      if IsKeyChar(v[0]) {
        KeyStaysOpen(key + [v[0]], v[1..], allowed);
      }
    }
  }

  /** A value that is not inert fails after some beginning of a placeholder. */
  lemma NotInertSomewhere(v: string, allowed: set<string>) returns (partial: string)
    requires !Inert(v, allowed)
    ensures (partial == "" || IsPartial(partial)) && Feed(partial, v, allowed) != Some("")
  {
    if j :| 0 <= j <= |OPEN| && Feed(OPEN[..j], v, allowed) != Some("") {
      partial := OPEN[..j];
    } else {
      var n := LongerThanAll(allowed);
      partial := OPEN + LongKey(n);
      assert partial[|OPEN|..] == LongKey(n);
      KeyStaysOpen(LongKey(n), v, allowed);
    }
  }

  lemma OneMatch(partial: string, key: string, x: string, m: map<string, string>)
    requires partial == "" || IsPartial(partial)
    requires ValidKey(key) && key in m && '$' !in x
    ensures var s := partial + (Placeholder(key) + x);
            Keys(s) == [key] && Resolve(s, m) == partial + (m[key] + x)
  {
    hide *;
    WholeAfterPartial(partial, key, x, m);
    NoDollar(x, "", m);
    assert x + "" == x;
    EmptyText(m);
  }

  lemma PlaceholderInside(p: string, s: string, i: nat)
    requires IsPlaceholder(p) && p <= s && 0 < i < |p|
    ensures s[i] != '$'
  {
    PlaceholderPieces(p, 0);
    assert p[i] == s[i];
  }

  /** Occurrences of placeholders do not overlap: another one stands at the start or after the first one. */
  lemma OccurrenceApart(s: string, first: string, key: string, i: nat)
    requires ValidKey(first) && Placeholder(first) <= s
    requires ValidKey(key) && i <= |s| && Placeholder(key) <= s[i..]
    ensures var n := |Placeholder(first)|;
            if i == 0 then key == first else n <= i && s[i..] == s[n..][i - n..]
  {
    var p := Placeholder(first);
    KeyAtPlaceholder(s, first);
    if i == 0 {
      assert s[0..] == s;
      KeyAtPlaceholder(s, key);
    } else {
      assert p[|OPEN|..|p| - 1] == first;
      PlaceholderPieces(p, 0);
      assert s[i] == Placeholder(key)[0] == '$';
      if i < |p| {
        PlaceholderInside(p, s, i);
      }
    }
  }

  /** Extraction finds every occurrence of a placeholder, wherever it stands. */
  lemma {:induction false} EveryOccurrence(s: string, key: string)
    requires ValidKey(key)
    ensures key in Keys(s) <==> exists i :: 0 <= i <= |s| && Placeholder(key) <= s[i..]
    decreases |s|
  {
    if s == "" {
      assert |Placeholder(key)| > 0;
    } else {
      match KeyAt(s)
      case Some(first) =>
        var n := |Placeholder(first)|;
        EveryOccurrence(s[n..], key);
        if i :| 0 <= i <= |s| && Placeholder(key) <= s[i..] {
          OccurrenceApart(s, first, key, i);
        }
        if i :| 0 <= i <= |s[n..]| && Placeholder(key) <= s[n..][i..] {
          assert s[n..][i..] == s[n + i..];
        }
        if key == first {
          assert s[0..] == s;
        }
      case None =>
        EveryOccurrence(s[1..], key);
        if i :| 0 <= i <= |s| && Placeholder(key) <= s[i..] {
          if i == 0 {
            assert s[0..] == s;
            KeyAtPlaceholder(s, key);
          }
          assert s[1..][i - 1..] == s[i..];
        }
        if i :| 0 <= i <= |s[1..]| && Placeholder(key) <= s[1..][i..] {
          assert s[1..][i..] == s[1 + i..];
        }
    }
  }

  /**
   For a value that is not inert, a template whose only key has a value and whose resolution has a placeholder
   of a key that is not allowed. Other values make no difference to its resolution.
   */
  lemma GrownTemplate(key: string, m: map<string, string>, allowed: set<string>) returns (s: string, grown: string)
    requires ValidKey(key) && key in m && !Inert(m[key], allowed)
    ensures Keys(s) == [key] && grown in Keys(Resolve(s, m)) && ValidKey(grown) && grown !in allowed
    ensures forall m' :: key in m' && m'[key] == m[key] ==> Resolve(s, m') == Resolve(s, m)
  {
    var v := m[key];
    var n := LongerThanAll(allowed);
    var partial := NotInertSomewhere(v, allowed);
    FedIsPartial(partial, v, allowed);
    var fed := Feed(partial, v, allowed);
    var x := if fed.Some? then Completion(fed.value, n) else "";
    if fed.Some? {
      CompletionCompletes(fed.value, n);
    }
    var i := MatchGrows(partial, v, x, allowed, n);
    var w := partial + (v + x);
    grown := KeyAt(w[i..]).value;
    EveryOccurrence(w, grown);
    hide *;
    s := partial + (Placeholder(key) + x);
    forall m' | key in m' && m'[key] == v ensures Resolve(s, m') == w && Keys(s) == [key] {
      OneMatch(partial, key, x, m');
    }
  }

  /**
   Exactly when extraction commutes with substitution: for every template the keys left after resolving
   are the original keys without those that have a value, if and only if every value under a well-formed
   key is inert.
   */
  lemma ExtractionLaw(m: map<string, string>)
    ensures (forall s :: KeySet(Resolve(s, m)) == KeySet(s) - m.Keys) <==> AllInert(m, {})
  {
    if AllInert(m, {}) {
      forall s ensures KeySet(Resolve(s, m)) == KeySet(s) - m.Keys {
        ResolvedKeys(s, m);
      }
    } else {
      var key :| key in m && ValidKey(key) && !Inert(m[key], {});
      var s, grown := GrownTemplate(key, m, {});
      assert grown in KeySet(Resolve(s, m));
      assert KeySet(s) - m.Keys == {};
    }
  }

  /** Giving the empty value to a key of the text makes the text shorter. */
  lemma {:induction false} Shortened(s: string, key: string)
    ensures |Resolve(s, map[key := ""])| <= |s|
    ensures key in Keys(s) ==> |Resolve(s, map[key := ""])| < |s|
    decreases |s|
  {
    if s == "" {
    } else {
      match KeyAt(s)
      case Some(first) => Shortened(s[|Placeholder(first)|..], key);
      case None => Shortened(s[1..], key);
    }
  }

  lemma StagesDiffer(key: string, m: map<string, string>) returns (s: string, m': map<string, string>)
    requires ValidKey(key) && key in m && !Inert(m[key], m.Keys)
    ensures m.Keys !! m'.Keys && Resolve(Resolve(s, m), m') != Resolve(s, m + m')
  {
    hide *;
    var grown;
    s, grown := GrownTemplate(key, m, m.Keys);
    m' := map[grown := ""];
    assert (m + m')[key] == m[key];
    Shortened(Resolve(s, m), grown);
  }

  /**
   Exactly when resolving can be done in stages: for every template and all values of further keys, resolving
   with `m` and then with those equals resolving once with both, if and only if the values of `m` are inert but
   for placeholders of keys of `m` itself.
   */
  lemma StagedLaw(m: map<string, string>)
    ensures (forall s, m': map<string, string> :: m.Keys !! m'.Keys ==>
             Resolve(Resolve(s, m), m') == Resolve(s, m + m'))
       <==> AllInert(m, m.Keys)
  {
    if AllInert(m, m.Keys) {
      forall s, m': map<string, string> | m.Keys !! m'.Keys ensures Resolve(Resolve(s, m), m') == Resolve(s, m + m') {
        StagedResolution(s, m, m');
      }
    } else {
      var key :| key in m && ValidKey(key) && !Inert(m[key], m.Keys);
      var s, m' := StagesDiffer(key, m);
      assert Resolve(Resolve(s, m), m') != Resolve(s, m + m');
    }
  }

  /**
   Once every key of a template has an inert value, resolving leaves no placeholder; otherwise the missing
   ones stay.
   */
  lemma ResolvedCompletely(s: string, m: map<string, string>)
    requires AllInert(m, {})
    ensures Keys(Resolve(s, m)) == [] <==> KeySet(s) <= m.Keys
  {
    ResolvedKeys(s, m);
    var left := Without(Keys(s), m);
    if left == [] {
      forall key | key in KeySet(s) ensures key in m {
        assert key in m || key in left;
      }
    } else {
      assert left[0] in left;
    }
  }

  // Sorted key lists.

  /** The byte order of sort.Strings, on the characters of keys. */
  predicate LexLess(a: string, b: string) {
    b != "" && (a == "" || a[0] < b[0] || (a[0] == b[0] && LexLess(a[1..], b[1..])))
  }

  lemma {:induction false} LexTotal(a: string, b: string)
    ensures a == b || LexLess(a, b) || LexLess(b, a)
    ensures !(LexLess(a, b) && LexLess(b, a)) && (a == b ==> !LexLess(a, b))
  {
    if a == "" || b == "" {
    } else {
      LexTotal(a[1..], b[1..]);
      assert a == [a[0]] + a[1..] && b == [b[0]] + b[1..];
    }
  }

  lemma {:induction false} LexTransitive(a: string, b: string, c: string)
    requires LexLess(a, b) && LexLess(b, c)
    ensures LexLess(a, c)
  {
    if a == "" || !(a[0] == b[0] == c[0]) {
    } else {
      LexTransitive(a[1..], b[1..], c[1..]);
    }
  }

  ghost predicate StrictlySorted(keys: seq<string>) {
    forall i, j :: 0 <= i < j < |keys| ==> LexLess(keys[i], keys[j])
  }

  /** A strictly sorted list is determined by what it contains. */
  lemma {:induction false} SortedUnique(a: seq<string>, b: seq<string>)
    requires StrictlySorted(a) && StrictlySorted(b) && forall key :: key in a <==> key in b
    ensures a == b
  {
    assert b != [] ==> b[0] in b;
    if a == [] {
    } else {
      assert a[0] in b && b != [];
      assert b[0] in a;
      LexTotal(a[0], b[0]);
      assert a[0] == b[0];
      forall key ensures key in a[1..] <==> key in b[1..] {
        LexTotal(key, a[0]);
        assert key in a <==> key == a[0] || key in a[1..];
        assert key in b <==> key == b[0] || key in b[1..];
      }
      SortedUnique(a[1..], b[1..]);
    }
  }

  function Inserted(keys: seq<string>, key: string): (r: seq<string>)
    ensures forall k :: k in r <==> k == key || k in keys
  {
    if keys == [] || LexLess(key, keys[0]) then [key] + keys
    else
      assert keys == [keys[0]] + keys[1..];
      [keys[0]] + Inserted(keys[1..], key)
  }

  lemma {:induction false} InsertedSorted(keys: seq<string>, key: string)
    requires StrictlySorted(keys) && key !in keys
    ensures StrictlySorted(Inserted(keys, key))
  {
    if keys == [] {
    } else {
      LexTotal(key, keys[0]);
      assert keys[0] in keys;
      if LexLess(key, keys[0]) {
        forall j | 1 <= j < |keys| ensures LexLess(key, keys[j]) {
          LexTransitive(key, keys[0], keys[j]);
        }
      } else {
        InsertedSorted(keys[1..], key);
        var r := Inserted(keys[1..], key);
        forall j | 0 <= j < |r| ensures LexLess(keys[0], r[j]) {
          assert r[j] in r;
        }
      }
    }
  }

  method SortStrings(keys: seq<string>) returns (sorted: seq<string>)
    requires forall i, j :: 0 <= i < j < |keys| ==> keys[i] != keys[j]
    ensures StrictlySorted(sorted) && forall key :: key in sorted <==> key in keys
  {
    sorted := [];
    for i := 0 to |keys|
      invariant StrictlySorted(sorted)
      invariant forall key :: key in sorted <==> key in keys[..i]
    {
      InsertedSorted(sorted, keys[i]);
      sorted := Inserted(sorted, keys[i]);
      assert keys[..i + 1] == keys[..i] + [keys[i]];
    }
    assert keys[..|keys|] == keys;
  }

  /** The result lists every key of a placeholder once, in sorted order; SortedUnique: nothing else does. */
  method ExtractPlaceholderKeys(content: string) returns (keys: seq<string>)
    ensures StrictlySorted(keys)
    ensures forall key :: key in keys <==> key in KeySet(content)
  {
    var matches := Keys(content);
    var seen: set<string> := {};
    var found: seq<string> := [];
    for i := 0 to |matches|
      invariant forall key :: key in seen <==> key in matches[..i]
      invariant forall key :: key in found <==> key in seen
      invariant forall j, k :: 0 <= j < k < |found| ==> found[j] != found[k]
    {
      var key := matches[i];
      assert matches[..i + 1] == matches[..i] + [key];
      if key !in seen {
        assert forall j :: 0 <= j < |found| ==> found[j] in found;
        seen := seen + {key};
        found := found + [key];
      }
    }
    assert matches[..|matches|] == matches;
    keys := SortStrings(found);
  }

  /** `failed` stands for ErrMissingSecret; it is raised exactly when some key is not available. */
  method ValidatePlaceholders(content: string, availableKeys: set<string>) returns (missing: seq<string>, failed: bool)
    ensures StrictlySorted(missing)
    ensures forall key :: key in missing <==> key in KeySet(content) && key !in availableKeys
    ensures failed <==> !(KeySet(content) <= availableKeys)
  {
    var keys := ExtractPlaceholderKeys(content);
    missing := [];
    for i := 0 to |keys|
      invariant forall key :: key in missing <==> key in keys[..i] && key !in availableKeys
      invariant StrictlySorted(missing)
    {
      assert keys[..i + 1] == keys[..i] + [keys[i]];
      if keys[i] !in availableKeys {
        forall j | 0 <= j < |missing| ensures LexLess(missing[j], keys[i]) {
          assert missing[j] in missing;
          var k :| 0 <= k < i && keys[k] == missing[j];
        }
        missing := missing + [keys[i]];
      }
    }
    assert keys[..|keys|] == keys;
    failed := |missing| > 0;
    if failed {
      assert missing[0] in missing;
    }
  }
}
