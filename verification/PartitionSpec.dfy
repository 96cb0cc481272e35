/**
 What partitioning a load test configuration among workers means: which scalars of the configuration
 tree are divided, what each worker's share is, and the summary and environment that repeat the shares.
 */
module PartitionSpec {
  import opened Text
  import opened Decimal
  import opened Arithmetic
  import opened YamlTree

  const MAX_INT: int := 0x7FFF_FFFF_FFFF_FFFF

  /** strconv.Atoi with its error dropped: 0 for text that is no number, the nearest bound for one out of range. */
  function Atoi(s: string): (n: int)
    ensures -MAX_INT - 1 <= n <= MAX_INT
  {
    var signed := s != "" && (s[0] == '-' || s[0] == '+');
    var body := if signed then s[1..] else s;
    if !IsNumeral(body) then 0
    else
      var n: int := NatOf(body);
      if signed && s[0] == '-' then (if n > MAX_INT + 1 then -MAX_INT - 1 else -n)
      else if n > MAX_INT then MAX_INT else n
  }

  /** strconv.Itoa, which is only ever given numbers that are not negative. */
  function Itoa(n: nat): string {
    ShowNat(n)
  }

  /** A sign may precede the digits; numbers out of range are cut, and other texts are 0. */
  lemma AtoiForms(digits: string)
    requires IsNumeral(digits)
    ensures Atoi(digits) == Atoi("+" + digits) == (if NatOf(digits) <= MAX_INT then NatOf(digits) else MAX_INT)
    ensures Atoi("-" + digits) == if NatOf(digits) <= MAX_INT + 1 then 0 - NatOf(digits) else -MAX_INT - 1
  {
    assert ("+" + digits)[1..] == digits && ("-" + digits)[1..] == digits;
    hide NatOf;
  }

  lemma AtoiOther(s: string)
    requires !IsNumeral(s) && (s != "" && s[0] in {'+', '-'} ==> !IsNumeral(s[1..]))
    ensures Atoi(s) == 0
  {
  }

  lemma AtoiOfItoa(n: nat)
    requires n <= MAX_INT
    ensures Atoi(Itoa(n)) == n
  {
    NatOfShowNat(n);
    assert IsDigit(Itoa(n)[0]);
  }

  /** partitionValue */
  function Share(total: int, worker: nat, workers: int): nat {
    if total <= 0 || workers <= 0 then 0
    else if worker < total % workers then total / workers + 1
    else total / workers
  }

  function ShareSum(total: int, workers: int, upTo: nat): nat {
    if upTo == 0 then 0 else ShareSum(total, workers, upTo - 1) + Share(total, upTo - 1, workers)
  }

  lemma {:induction false} PartialShareSum(total: int, workers: nat, upTo: nat)
    requires total > 0 && workers >= 1
    ensures ShareSum(total, workers, upTo)
         == upTo * (total / workers) + if upTo <= total % workers then upTo else total % workers
  {
    if upTo == 0 {
    } else {
      PartialShareSum(total, workers, upTo - 1);
      var base := total / workers;
      assert upTo * base == (upTo - 1) * base + base;
    }
  }

  lemma {:induction false} NoShares(total: int, workers: nat, upTo: nat)
    requires total <= 0
    ensures ShareSum(total, workers, upTo) == 0
  {
    if upTo == 0 {
    } else {
      NoShares(total, workers, upTo - 1);
    }
  }

  /** The shares of all workers add up to the total, or to nothing when the total is negative. */
  lemma SharesAddUp(total: int, workers: nat)
    requires workers >= 1
    ensures ShareSum(total, workers, workers) == if total > 0 then total else 0
  {
    if total > 0 {
      PartialShareSum(total, workers, workers);
      assert total == workers * (total / workers) + total % workers;
    } else {
      NoShares(total, workers, workers);
    }
  }

  lemma NoShare(total: int, worker: nat, workers: nat)
    requires total <= 0
    ensures Share(total, worker, workers) == 0
  {
  }

  lemma MulGrows(k: int, x: int)
    requires k >= 1 && x >= 0
    ensures k * x >= x
  {
  }

  lemma ShareParts(total: int, workers: nat) returns (base: nat, rem: nat)
    requires total > 0 && workers >= 1
    ensures rem < workers
    ensures if base == 0 then total == rem else workers <= total && base + (if rem > 0 then 1 else 0) <= total
    ensures forall k: nat :: Share(total, k, workers) == base + if k < rem then 1 else 0
  {
    base, rem := total / workers, total % workers;
    assert total == workers * base + rem;
    if base >= 1 {
      MulBounds(workers, base);
      MulGrows(workers, base);
    }
  }

  /**
   No worker gets more than a later one by more than one, none gets less, and the first `total` workers are
   the ones that get any.
   */
  lemma SharesAreFair(total: int, workers: nat, i: nat, j: nat)
    requires i <= j < workers
    ensures Share(total, j, workers) <= Share(total, i, workers) <= Share(total, j, workers) + 1
    ensures Share(total, i, workers) <= if total > 0 then total else 0
    ensures Share(total, i, workers) >= 1 <==> i < total
  {
    hide Share;
    if total > 0 {
      var base, rem := ShareParts(total, workers);
    } else {
      NoShare(total, i, workers);
      NoShare(total, j, workers);
    }
  }

  // Lookups.

  function KeyFrom(content: seq<Tree>, key: string, k: nat): (r: Option<nat>)
    requires |content| % 2 == 0 && k % 2 == 0 && k <= |content|
    ensures r.Some? ==> k < r.value < |content| && r.value % 2 == 1 && content[r.value - 1].value == key
    ensures forall j :: k <= j < |content| && j % 2 == 0 && (r.None? || j + 1 < r.value) ==> content[j].value != key
    decreases |content| - k
  {
    if k == |content| then None
    else if content[k].value == key then Some(k + 1)
    else KeyFrom(content, key, k + 2)
  }

  /** Where the value of the first occurrence of a key stands in a mapping's content. */
  function KeyIndex(t: Tree, key: string): (r: Option<nat>)
    requires t.kind == Mapping ==> |t.content| % 2 == 0
    ensures r.Some? ==>
              t.kind == Mapping && r.value < |t.content| && r.value % 2 == 1 && t.content[r.value - 1].value == key
    ensures t.kind == Mapping ==>
              forall j :: 0 <= j < (if r.Some? then r.value - 1 else |t.content|) && j % 2 == 0 ==>
                t.content[j].value != key
  {
    if t.kind != Mapping then None else KeyFrom(t.content, key, 0)
  }

  /** findNodeByKey: through document nodes, in order, to the first mapping that has the key. */
  function FindPath(t: Tree, key: string): (r: Option<Path>)
    requires WellFormed(t)
    ensures r.Some? ==> r.value != [] && HasPath(t, r.value)
    decreases t, 1, 0
  {
    if t.kind == Document then FindInDocument(t, key, 0)
    else match KeyIndex(t, key)
      case Some(j) => Some([j])
      case None => None
  }

  function FindInDocument(t: Tree, key: string, k: nat): (r: Option<Path>)
    requires WellFormed(t) && k <= |t.content|
    ensures r.Some? ==> r.value != [] && HasPath(t, r.value)
    decreases t, 0, |t.content| - k
  {
    if k == |t.content| then None
    else match FindPath(t.content[k], key)
      case Some(p) => assert ([k] + p)[1..] == p; Some([k] + p)
      case None => FindInDocument(t, key, k + 1)
  }

  /** The path leads through document nodes to a mapping, and in it to the value of the key. */
  predicate IsPlace(t: Tree, key: string, p: Path)
    requires WellFormed(t)
    decreases |p|
  {
    if t.kind == Document then p != [] && p[0] < |t.content| && IsPlace(t.content[p[0]], key, p[1..])
    else KeyIndex(t, key).Some? && p == [KeyIndex(t, key).value]
  }

  /** Document order of paths that leave one another. */
  predicate Before(p: Path, q: Path) {
    p != [] && q != [] && (p[0] < q[0] || (p[0] == q[0] && Before(p[1..], q[1..])))
  }

  /**
   The path found is the first place in document order that has the key, and none is found only if there is no
   such place.
   */
  lemma {:induction false} FindPathIsFirst(t: Tree, key: string)
    requires WellFormed(t)
    ensures match FindPath(t, key)
            case Some(p) => IsPlace(t, key, p) && forall q :: IsPlace(t, key, q) ==> q == p || Before(p, q)
            case None => forall q :: !IsPlace(t, key, q)
    decreases t, 1, 0
  {
    hide KeyIndex;
    if t.kind == Document {
      FindInDocumentIsFirst(t, key, 0);
    }
  }

  lemma {:induction false} FindInDocumentIsFirst(t: Tree, key: string, k: nat)
    requires WellFormed(t) && t.kind == Document && k <= |t.content|
    ensures match FindInDocument(t, key, k)
            case Some(p) => IsPlace(t, key, p) && forall q :: IsPlace(t, key, q) && k <= q[0] ==> q == p || Before(p, q)
            case None => forall q :: IsPlace(t, key, q) ==> q[0] < k
    decreases t, 0, |t.content| - k
  {
    hide KeyIndex;
    if k == |t.content| {
    } else {
      var child := t.content[k];
      FindPathIsFirst(child, key);
      FindInDocumentIsFirst(t, key, k + 1);
      match FindPath(child, key)
      case Some(p) =>
        assert ([k] + p)[1..] == p;
        forall q | IsPlace(t, key, q) && k <= q[0] ensures q == [k] + p || Before([k] + p, q) {
          if q[0] == k {
            assert IsPlace(child, key, q[1..]) && q == [k] + q[1..];
          }
        }
      case None =>
    }
  }

  /** The paths at which two different keys are found do not lie below one another. */
  lemma {:induction false} FoundApart(t: Tree, key: string, other: string)
    requires WellFormed(t) && key != other
    requires FindPath(t, key).Some? && FindPath(t, other).Some?
    ensures !(FindPath(t, key).value <= FindPath(t, other).value)
    decreases t, 1, 0
  {
    if t.kind == Document {
      FoundApartIn(t, key, 0, other, 0);
    }
  }

  lemma {:induction false} FoundApartIn(t: Tree, key: string, k: nat, other: string, j: nat)
    requires WellFormed(t) && t.kind == Document && key != other && k <= |t.content| && j <= |t.content|
    requires FindInDocument(t, key, k).Some? && FindInDocument(t, other, j).Some?
    ensures !(FindInDocument(t, key, k).value <= FindInDocument(t, other, j).value)
    decreases t, 0, |t.content| - k + |t.content| - j
  {
    if FindPath(t.content[k], key).None? {
      FoundApartIn(t, key, k + 1, other, j);
    } else if FindPath(t.content[j], other).None? {
      FoundApartIn(t, key, k, other, j + 1);
    } else {
      var p, q := FindInDocument(t, key, k).value, FindInDocument(t, other, j).value;
      assert p[1..] == FindPath(t.content[k], key).value && q[1..] == FindPath(t.content[j], other).value;
      if p <= q {
        assert k == j;
        assert p[1..] <= q[1..];
        FoundApart(t.content[k], key, other);
      }
    }
  }

  // The scalars that are divided.

  function TypeOf(body: Tree): string
    requires body.kind == Mapping ==> |body.content| % 2 == 0
  {
    match KeyIndex(body, "type")
    case Some(j) => TrimSpace(body.content[j].value)
    case None => "constant_vus"
  }

  /** The field of a mapping that a key names, if it is to be divided. */
  function Field(body: Tree, key: string, positiveOnly: bool): (r: Option<nat>)
    requires body.kind == Mapping ==> |body.content| % 2 == 0
    ensures r.Some? ==> r == KeyIndex(body, key)
  {
    match KeyIndex(body, key)
    case Some(j) => if positiveOnly && Atoi(body.content[j].value) <= 0 then None else Some(j)
    case None => None
  }

  function FieldTargets(at: Path, body: Tree, key: string, positiveOnly: bool): set<Path>
    requires body.kind == Mapping ==> |body.content| % 2 == 0
  {
    match Field(body, key, positiveOnly)
    case Some(j) => {at + [j]}
    case None => {}
  }

  function FieldShare(body: Tree, key: string, positiveOnly: bool, worker: nat, workers: nat): (share: Option<nat>)
    requires body.kind == Mapping ==> |body.content| % 2 == 0
    ensures share.Some? <==> Field(body, key, positiveOnly).Some?
  {
    match Field(body, key, positiveOnly)
    case Some(j) => Some(Share(Atoi(body.content[j].value), worker, workers))
    case None => None
  }

  function StageTargets(at: Path, stages: Tree, upTo: nat): set<Path>
    requires WellFormed(stages) && upTo <= |stages.content|
  {
    if upTo == 0 then {}
    else
      assert WellFormed(stages.content[upTo - 1]);
      StageTargets(at, stages, upTo - 1) + FieldTargets(at + [upTo - 1], stages.content[upTo - 1], "target", false)
  }

  /** The paths of the divided scalars of one scenario, whose body stands at `at`. */
  function ScenarioTargets(at: Path, body: Tree): set<Path>
    requires WellFormed(body)
  {
    var kind := TypeOf(body);
    if kind == "constant_vus" then FieldTargets(at, body, "vus", false)
    else if kind == "arrival_rate" then
      FieldTargets(at, body, "target_tps", false)
      + FieldTargets(at, body, "max_vus", false)
      + FieldTargets(at, body, "burst_buffer", true)
    else if kind == "ramping_vus" then
      match KeyIndex(body, "stages")
      case Some(j) =>
        var stages := body.content[j];
        if stages.kind == Sequence then StageTargets(at + [j], stages, |stages.content|) else {}
      case None => {}
    else {}
  }

  function ScenariosTargets(at: Path, scenarios: Tree, upTo: nat): set<Path>
    requires WellFormed(scenarios) && upTo % 2 == 0 && upTo <= |scenarios.content|
  {
    if upTo == 0 then {}
    else
      var body := scenarios.content[upTo - 1];
      ScenariosTargets(at, scenarios, upTo - 2)
      + if body.kind == Mapping then ScenarioTargets(at + [upTo - 1], body) else {}
  }

  /** All paths of `targets` go through a child of `at` with index below `bound`, and end at an odd index. */
  ghost predicate Under(targets: set<Path>, at: Path, bound: nat) {
    forall p :: p in targets ==> at <= p && |at| < |p| && p[|at|] < bound && p[|p| - 1] % 2 == 1
  }

  lemma {:induction false} StageTargetsUnder(at: Path, stages: Tree, upTo: nat)
    requires WellFormed(stages) && upTo <= |stages.content|
    ensures Under(StageTargets(at, stages, upTo), at, upTo)
  {
    if upTo == 0 {
    } else {
      StageTargetsUnder(at, stages, upTo - 1);
    }
  }

  lemma BelowChild(at: Path, k: nat, p: Path)
    ensures at + [k] <= p <==> at <= p && |at| < |p| && p[|at|] == k
  {
    if at + [k] <= p {
      assert p[..|at|] == (at + [k])[..|at|];
    }
  }

  lemma FieldTargetsUnder(at: Path, body: Tree, key: string, positiveOnly: bool)
    requires WellFormed(body)
    ensures Under(FieldTargets(at, body, key, positiveOnly), at, |body.content|)
  {
    hide KeyIndex, Atoi;
  }

  lemma ScenarioTargetsUnder(at: Path, body: Tree)
    requires WellFormed(body)
    ensures Under(ScenarioTargets(at, body), at, |body.content|)
  {
    hide StageTargets, TypeOf, Atoi, KeyFrom, FieldTargets;
    FieldTargetsUnder(at, body, "vus", false);
    FieldTargetsUnder(at, body, "target_tps", false);
    FieldTargetsUnder(at, body, "max_vus", false);
    FieldTargetsUnder(at, body, "burst_buffer", true);
    if TypeOf(body) == "ramping_vus" && KeyIndex(body, "stages").Some? {
      var j := KeyIndex(body, "stages").value;
      var stages := body.content[j];
      StageTargetsUnder(at + [j], stages, |stages.content|);
      forall p | p in StageTargets(at + [j], stages, |stages.content|) ensures at <= p && |at| < |p| && p[|at|] == j {
        BelowChild(at, j, p);
      }
    }
  }

  lemma {:induction false} ScenariosTargetsUnder(at: Path, scenarios: Tree, upTo: nat)
    requires WellFormed(scenarios) && upTo % 2 == 0 && upTo <= |scenarios.content|
    ensures Under(ScenariosTargets(at, scenarios, upTo), at, upTo)
  {
    if upTo == 0 {
    } else {
      ScenariosTargetsUnder(at, scenarios, upTo - 2);
      var body, place := scenarios.content[upTo - 1], at + [upTo - 1];
      ScenarioTargetsUnder(place, body);
      forall p | p in ScenarioTargets(place, body) ensures at <= p && |at| < |p| && p[|at|] == upTo - 1 {
        BelowChild(at, upTo - 1, p);
      }
    }
  }

  /** Where the scenarios mapping stands, when there is one. */
  function ScenariosPath(t: Tree): (r: Option<Path>)
    requires WellFormed(t)
    ensures r.Some? ==> HasPath(t, r.value) && At(t, r.value).kind == Mapping && WellFormed(At(t, r.value))
  {
    match FindPath(t, "scenarios")
    case Some(p) =>
      WellFormedAt(t, p);
      if At(t, p).kind == Mapping then Some(p) else None
    case None => None
  }

  function ScenariosOf(t: Tree): (scenarios: Tree)
    requires WellFormed(t) && ScenariosPath(t).Some?
    ensures scenarios.kind == Mapping && WellFormed(scenarios) && |scenarios.content| % 2 == 0
    ensures HasPath(t, ScenariosPath(t).value) && scenarios == At(t, ScenariosPath(t).value)
  {
    At(t, ScenariosPath(t).value)
  }

  function SettingsTargets(t: Tree): set<Path>
    requires WellFormed(t)
  {
    match FindPath(t, "settings")
    case Some(p) => WellFormedAt(t, p); FieldTargets(p, At(t, p), "concurrency", false)
    case None => {}
  }

  /** All paths of divided scalars in a configuration that has scenarios. */
  function Targets(t: Tree): set<Path>
    requires WellFormed(t) && ScenariosPath(t).Some?
  {
    var at := ScenariosPath(t).value;
    var scenarios := At(t, at);
    ScenariosTargets(at, scenarios, |scenarios.content|) + SettingsTargets(t)
  }

  /** At `at` there is a mapping, and `p` is the place of the value of its first `key`. */
  ghost predicate IsValueOf(t: Tree, at: Path, key: string, p: Path) {
    && HasPath(t, at) && At(t, at).kind == Mapping && |At(t, at).content| % 2 == 0
    && KeyIndex(At(t, at), key).Some? && p == at + [KeyIndex(At(t, at), key).value]
  }

  /** The scenario body at `at` has the type: constant_vus if none is given. */
  ghost predicate HasType(t: Tree, at: Path, kind: string) {
    && HasPath(t, at) && At(t, at).kind == Mapping && |At(t, at).content| % 2 == 0
    && match KeyIndex(At(t, at), "type")
       case Some(j) => TrimSpace(At(t, at).content[j].value) == kind
       case None => kind == "constant_vus"
  }

  /** `at` is the place of a scenario: under a key of the mapping under scenarios, and a mapping. */
  ghost predicate IsScenarioPlace(t: Tree, at: Path)
    requires WellFormed(t)
  {
    && FindPath(t, "scenarios").Some?
    && at != [] && at[..|at| - 1] == FindPath(t, "scenarios").value && at[|at| - 1] % 2 == 1
    && HasPath(t, at) && At(t, at).kind == Mapping
  }

  /** `at` is the place of an item of the list that is the first value of stages in the scenario at `body`. */
  ghost predicate IsStagePlace(t: Tree, body: Path, at: Path) {
    && HasPath(t, at) && at != [] && HasPath(t, at[..|at| - 1])
    && IsValueOf(t, body, "stages", at[..|at| - 1]) && At(t, at[..|at| - 1]).kind == Sequence
  }

  ghost predicate IsDividedIn(t: Tree, body: Path, p: Path) {
    || (HasType(t, body, "constant_vus") && IsValueOf(t, body, "vus", p))
    || (HasType(t, body, "arrival_rate") && (IsValueOf(t, body, "target_tps", p) || IsValueOf(t, body, "max_vus", p)))
    || (HasType(t, body, "arrival_rate") && IsValueOf(t, body, "burst_buffer", p)
        && HasPath(t, p) && Atoi(At(t, p).value) > 0)
    || (HasType(t, body, "ramping_vus")
        && exists stage :: IsStagePlace(t, body, stage) && IsValueOf(t, stage, "target", p))
  }

  /** Which scalars are divided, place by place. */
  ghost predicate IsDividedPlace(t: Tree, p: Path)
    requires WellFormed(t)
  {
    || (FindPath(t, "settings").Some? && IsValueOf(t, FindPath(t, "settings").value, "concurrency", p))
    || exists body :: IsScenarioPlace(t, body) && IsDividedIn(t, body, p)
  }

  lemma FieldPlaces(t: Tree, at: Path, key: string, positiveOnly: bool, p: Path)
    requires HasPath(t, at) && WellFormed(At(t, at))
    ensures p in FieldTargets(at, At(t, at), key, positiveOnly) <==>
            IsValueOf(t, at, key, p) && HasPath(t, p) && (positiveOnly ==> Atoi(At(t, p).value) > 0)
  {
    hide Atoi;
    if KeyIndex(At(t, at), key).Some? {
      PathStep(t, at, KeyIndex(At(t, at), key).value);
    }
    hide KeyIndex, HasPath;
  }

  lemma WellFormedChild(t: Tree, k: nat)
    requires WellFormed(t) && k < |t.content|
    ensures WellFormed(t.content[k])
  {
  }

  lemma ValuesExist(t: Tree, at: Path, p: Path)
    ensures forall key :: IsValueOf(t, at, key, p) ==> HasPath(t, p)
  {
    forall key | IsValueOf(t, at, key, p) ensures HasPath(t, p) {
      PathStep(t, at, KeyIndex(At(t, at), key).value);
    }
  }

  lemma {:induction false} StagePlaces(t: Tree, at: Path, upTo: nat, p: Path)
    requires HasPath(t, at) && WellFormed(At(t, at)) && upTo <= |At(t, at).content|
    ensures p in StageTargets(at, At(t, at), upTo) <==>
            exists s :: 0 <= s < upTo && HasPath(t, at + [s]) && IsValueOf(t, at + [s], "target", p)
  {
    if upTo == 0 {
    } else {
      hide FieldTargets, IsValueOf, HasPath, At, WellFormed;
      var s := upTo - 1;
      StagePlaces(t, at, s, p);
      PathStep(t, at, s);
      WellFormedChild(At(t, at), s);
      FieldPlaces(t, at + [s], "target", false, p);
      ValuesExist(t, at + [s], p);
    }
  }

  lemma {:induction false} PathLast(t: Tree, p: Path, k: nat)
    requires HasPath(t, p + [k])
    ensures HasPath(t, p) && k < |At(t, p).content|
    decreases |p|
  {
    if p == [] {
    } else {
      assert (p + [k])[1..] == p[1..] + [k];
      PathLast(t.content[p[0]], p[1..], k);
    }
  }

  lemma ItemIsStage(t: Tree, body: Path, at: Path, s: nat)
    requires HasPath(t, at) && IsValueOf(t, body, "stages", at) && At(t, at).kind == Sequence
    requires s < |At(t, at).content|
    ensures HasPath(t, at + [s]) && IsStagePlace(t, body, at + [s])
  {
    PathStep(t, at, s);
    assert (at + [s])[..|at|] == at;
    hide IsValueOf, HasPath, At;
  }

  lemma StageIsItem(t: Tree, body: Path, at: Path, stage: Path)
    requires IsValueOf(t, body, "stages", at) && IsStagePlace(t, body, stage)
    ensures stage != [] && HasPath(t, stage) && HasPath(t, at)
    ensures var s := stage[|stage| - 1]; stage == at + [s] && s < |At(t, at).content|
  {
    var s := stage[|stage| - 1];
    assert stage == stage[..|stage| - 1] + [s];
    assert stage[..|stage| - 1] == at;
    hide IsValueOf, HasPath, At;
    PathLast(t, at, s);
  }

  lemma StagesPlaces(t: Tree, body: Path, p: Path)
    requires HasPath(t, body) && WellFormed(At(t, body)) && At(t, body).kind == Mapping
    requires KeyIndex(At(t, body), "stages").Some?
    requires At(t, body).content[KeyIndex(At(t, body), "stages").value].kind == Sequence
    ensures var at := body + [KeyIndex(At(t, body), "stages").value];
            && HasPath(t, at) && WellFormed(At(t, at))
            && (p in StageTargets(at, At(t, at), |At(t, at).content|) <==>
                  exists stage :: IsStagePlace(t, body, stage) && IsValueOf(t, stage, "target", p))
  {
    hide KeyIndex;
    var j := KeyIndex(At(t, body), "stages").value;
    var at := body + [j];
    PathStep(t, body, j);
    WellFormedChild(At(t, body), j);
    assert IsValueOf(t, body, "stages", at) by { hide HasPath; }
    hide IsStagePlace, IsValueOf, StageTargets, WellFormed, HasPath, At;
    StagePlaces(t, at, |At(t, at).content|, p);
    forall s: nat | s < |At(t, at).content| ensures IsStagePlace(t, body, at + [s]) {
      ItemIsStage(t, body, at, s);
    }
    forall stage | IsStagePlace(t, body, stage) && IsValueOf(t, stage, "target", p)
      ensures exists s :: 0 <= s < |At(t, at).content| && HasPath(t, at + [s]) && IsValueOf(t, at + [s], "target", p)
    {
      StageIsItem(t, body, at, stage);
    }
  }

  lemma NoStagePlace(t: Tree, body: Path)
    requires HasPath(t, body) && WellFormed(At(t, body)) && At(t, body).kind == Mapping
    requires var j := KeyIndex(At(t, body), "stages"); j.Some? ==> At(t, body).content[j.value].kind != Sequence
    ensures forall stage :: !IsStagePlace(t, body, stage)
  {
    if KeyIndex(At(t, body), "stages").Some? {
      PathStep(t, body, KeyIndex(At(t, body), "stages").value);
    }
    hide KeyIndex, HasPath, At;
  }

  lemma RampingPlaces(t: Tree, body: Path, p: Path)
    requires HasPath(t, body) && WellFormed(At(t, body)) && At(t, body).kind == Mapping
    requires TypeOf(At(t, body)) == "ramping_vus"
    ensures p in ScenarioTargets(body, At(t, body)) <==>
            exists stage :: IsStagePlace(t, body, stage) && IsValueOf(t, stage, "target", p)
  {
    hide KeyIndex, StageTargets, IsValueOf, TypeOf, IsStagePlace;
    if KeyIndex(At(t, body), "stages").Some? {
      PathStep(t, body, KeyIndex(At(t, body), "stages").value);
      if At(t, body).content[KeyIndex(At(t, body), "stages").value].kind == Sequence {
        StagesPlaces(t, body, p);
      } else {
        NoStagePlace(t, body);
      }
    } else {
      NoStagePlace(t, body);
    }
  }

  lemma TypeFits(t: Tree, body: Path)
    requires HasPath(t, body) && WellFormed(At(t, body)) && At(t, body).kind == Mapping
    ensures forall kind :: HasType(t, body, kind) <==> TypeOf(At(t, body)) == kind
  {
    hide KeyIndex, TrimSpace;
  }

  /** The targets of one scenario are the places the types divide. */
  lemma ScenarioPlaces(t: Tree, body: Path, p: Path)
    requires HasPath(t, body) && WellFormed(At(t, body)) && At(t, body).kind == Mapping
    ensures p in ScenarioTargets(body, At(t, body)) <==> IsDividedIn(t, body, p)
  {
    var kind := TypeOf(At(t, body));
    hide Atoi, KeyIndex, FieldTargets, StageTargets, IsValueOf, TypeOf, HasType, HasPath, At, WellFormed, IsStagePlace;
    TypeFits(t, body);
    ValuesExist(t, body, p);
    if kind == "constant_vus" {
      FieldPlaces(t, body, "vus", false, p);
    } else if kind == "arrival_rate" {
      FieldPlaces(t, body, "target_tps", false, p);
      FieldPlaces(t, body, "max_vus", false, p);
      FieldPlaces(t, body, "burst_buffer", true, p);
    } else if kind == "ramping_vus" {
      RampingPlaces(t, body, p);
    }
  }

  lemma {:induction false} ScenariosPlaces(t: Tree, at: Path, upTo: nat, p: Path)
    requires HasPath(t, at) && WellFormed(At(t, at)) && upTo % 2 == 0 && upTo <= |At(t, at).content|
    ensures p in ScenariosTargets(at, At(t, at), upTo) <==>
            exists k: nat :: k < upTo && k % 2 == 1 && HasPath(t, at + [k]) && At(t, at + [k]).kind == Mapping
                          && IsDividedIn(t, at + [k], p)
    decreases upTo
  {
    hide ScenarioTargets, IsDividedIn;
    if upTo == 0 {
    } else {
      var k := upTo - 1;
      ScenariosPlaces(t, at, upTo - 2, p);
      PathStep(t, at, k);
      WellFormedChild(At(t, at), k);
      if At(t, at + [k]).kind == Mapping {
        ScenarioPlaces(t, at + [k], p);
      }
      hide HasPath, At, WellFormed;
    }
  }

  lemma SettingsPlaces(t: Tree, p: Path)
    requires WellFormed(t)
    ensures p in SettingsTargets(t) <==>
            FindPath(t, "settings").Some? && IsValueOf(t, FindPath(t, "settings").value, "concurrency", p)
  {
    hide FindPath, IsValueOf, FieldTargets;
    if FindPath(t, "settings").Some? {
      var at := FindPath(t, "settings").value;
      WellFormedAt(t, at);
      FieldPlaces(t, at, "concurrency", false, p);
      ValuesExist(t, at, p);
    }
  }

  /** The divided scalars are exactly those at the divided places. */
  lemma TargetsExactly(t: Tree, p: Path)
    requires WellFormed(t) && ScenariosPath(t).Some?
    ensures p in Targets(t) <==> IsDividedPlace(t, p)
  {
    hide IsDividedIn, ScenariosTargets, FieldTargets, IsValueOf, FindPath;
    var at := ScenariosPath(t).value;
    var n := |At(t, at).content|;
    WellFormedAt(t, at);
    ScenariosPlaces(t, at, n, p);
    forall k: nat | k < n && k % 2 == 1 && HasPath(t, at + [k]) && At(t, at + [k]).kind == Mapping
      ensures IsScenarioPlace(t, at + [k])
    {
      assert (at + [k])[..|at|] == at;
    }
    forall body | IsScenarioPlace(t, body)
      ensures var k := body[|body| - 1]; body == at + [k] && k < n
    {
      var k := body[|body| - 1];
      assert body == body[..|body| - 1] + [k];
      PathLast(t, at, k);
    }
    SettingsPlaces(t, p);
    hide HasPath, At, WellFormed;
  }

  /** `u` is `t` with the worker's share written at each of the given paths, and nothing else changed. */
  ghost predicate Divided(t: Tree, u: Tree, at: set<Path>, worker: nat, workers: nat) {
    && (forall p :: HasPath(u, p) <==> HasPath(t, p))
    && forall p :: HasPath(t, p) ==>
         && SameLabel(At(u, p), At(t, p))
         && At(u, p).value == if p in at then Itoa(Share(Atoi(At(t, p).value), worker, workers)) else At(t, p).value
  }

  lemma {:induction false} SameAtAllPaths(u: Tree, w: Tree)
    requires forall p :: HasPath(u, p) ==>
               HasPath(w, p) && SameLabel(At(u, p), At(w, p)) && At(u, p).value == At(w, p).value
    ensures u == w
    decreases u
  {
    assert HasPath(u, []);
    assert SameLabel(At(u, []), At(w, []));
    forall k | 0 <= k < |u.content| ensures u.content[k] == w.content[k] {
      forall p | HasPath(u.content[k], p)
        ensures HasPath(w.content[k], p) && SameLabel(At(u.content[k], p), At(w.content[k], p))
             && At(u.content[k], p).value == At(w.content[k], p).value
      {
        assert ([k] + p)[1..] == p;
        assert HasPath(u, [k] + p);
      }
      SameAtAllPaths(u.content[k], w.content[k]);
    }
  }

  /** Divided leaves no choice: there is one such tree. */
  lemma {:induction false} DividedUnique(t: Tree, u: Tree, w: Tree, at: set<Path>, worker: nat, workers: nat)
    requires Divided(t, u, at, worker, workers) && Divided(t, w, at, worker, workers)
    ensures u == w
  {
    SameAtAllPaths(u, w);
  }

  function ParsedSum(trees: seq<Tree>, p: Path): int
    requires forall i :: 0 <= i < |trees| ==> HasPath(trees[i], p)
  {
    if trees == [] then 0 else ParsedSum(trees[..|trees| - 1], p) + Atoi(At(trees[|trees| - 1], p).value)
  }

  /**
   The numbers of the workers at a divided place add up to the original, or to 0 for a negative one; they
   never increase with the worker's index and differ by at most 1; worker i gets any exactly when i is below
   the original. At any other place all trees have the original value.
   */
  ghost predicate Conserved(t: Tree, trees: seq<Tree>, p: Path)
    requires WellFormed(t)
  {
    && HasPath(t, p)
    && (forall i :: 0 <= i < |trees| ==> HasPath(trees[i], p) && SameLabel(At(trees[i], p), At(t, p)))
    && if IsDividedPlace(t, p) then
         var total := Atoi(At(t, p).value);
         && ParsedSum(trees, p) == (if total > 0 then total else 0)
         && (forall i, j :: 0 <= i <= j < |trees| ==>
               Atoi(At(trees[j], p).value) <= Atoi(At(trees[i], p).value) <= Atoi(At(trees[j], p).value) + 1)
         && forall i :: 0 <= i < |trees| ==> (Atoi(At(trees[i], p).value) >= 1 <==> i < total)
       else forall i :: 0 <= i < |trees| ==> At(trees[i], p).value == At(t, p).value
  }

  lemma ShareRead(t: Tree, u: Tree, divided: set<Path>, p: Path, worker: nat, workers: nat)
    requires Divided(t, u, divided, worker, workers) && HasPath(t, p) && p in divided && worker < workers
    ensures HasPath(u, p) && Atoi(At(u, p).value) == Share(Atoi(At(t, p).value), worker, workers)
  {
    hide Share, Atoi, Itoa;
    var total := Atoi(At(t, p).value);
    SharesAreFair(total, workers, worker, worker);
    AtoiOfItoa(Share(total, worker, workers));
  }

  lemma {:induction false} ParsedSumIs(trees: seq<Tree>, p: Path, total: int, workers: nat)
    requires forall i :: 0 <= i < |trees| ==>
               HasPath(trees[i], p) && Atoi(At(trees[i], p).value) == Share(total, i, workers)
    ensures ParsedSum(trees, p) == ShareSum(total, workers, |trees|)
  {
    if trees == [] {
    } else {
      ParsedSumIs(trees[..|trees| - 1], p, total, workers);
    }
  }

  /**
   Conservation. However a configuration is divided among its workers, what is read back from their trees
   is conserved at each of its places.
   */
  lemma Conservation(t: Tree, trees: seq<Tree>, p: Path)
    requires WellFormed(t) && ScenariosPath(t).Some? && |trees| >= 1
    requires forall i :: 0 <= i < |trees| ==> Divided(t, trees[i], Targets(t), i, |trees|)
    requires HasPath(t, p)
    ensures Conserved(t, trees, p)
  {
    hide Targets, ScenariosPath, IsDividedPlace, Share, Atoi, Itoa;
    TargetsExactly(t, p);
    if p in Targets(t) {
      var total := Atoi(At(t, p).value);
      var n := |trees|;
      forall i | 0 <= i < n ensures HasPath(trees[i], p) && Atoi(At(trees[i], p).value) == Share(total, i, n) {
        ShareRead(t, trees[i], Targets(t), p, i, n);
      }
      ParsedSumIs(trees, p, total, n);
      SharesAddUp(total, n);
      forall i, j | 0 <= i <= j < n
        ensures Share(total, j, n) <= Share(total, i, n) <= Share(total, j, n) + 1
                && (Share(total, i, n) >= 1 <==> i < total)
      {
        SharesAreFair(total, n, i, j);
      }
    }
  }

  // The summary and the environment.

  datatype ScenarioPartition = ScenarioPartition(scenarioType: string, vus: nat, targetTps: nat, maxVus: nat,
                                                 burstBuffer: nat, stageTargets: seq<nat>)

  function OrZero(n: Option<nat>): nat {
    match n
    case Some(k) => k
    case None => 0
  }

  function StageShares(stages: Tree, worker: nat, workers: nat): seq<nat>
    requires WellFormed(stages)
  {
    seq(|stages.content|, s requires 0 <= s < |stages.content| =>
      assert WellFormed(stages.content[s]);
      OrZero(FieldShare(stages.content[s], "target", false, worker, workers)))
  }

  function SummaryOf(body: Tree, worker: nat, workers: nat): ScenarioPartition
    requires WellFormed(body)
  {
    var kind := TypeOf(body);
    var none := ScenarioPartition(kind, 0, 0, 0, 0, []);
    if kind == "constant_vus" then
      none.(vus := OrZero(FieldShare(body, "vus", false, worker, workers)))
    else if kind == "arrival_rate" then
      none.(targetTps := OrZero(FieldShare(body, "target_tps", false, worker, workers)),
            maxVus := OrZero(FieldShare(body, "max_vus", false, worker, workers)),
            burstBuffer := OrZero(FieldShare(body, "burst_buffer", true, worker, workers)))
    else if kind == "ramping_vus" then
      match KeyIndex(body, "stages")
      case Some(j) =>
        var stages := body.content[j];
        if stages.kind == Sequence then none.(stageTargets := StageShares(stages, worker, workers)) else none
      case None => none
    else none
  }

  function SummaryUpTo(scenarios: Tree, upTo: nat, worker: nat, workers: nat): map<string, ScenarioPartition>
    requires WellFormed(scenarios) && upTo % 2 == 0 && upTo <= |scenarios.content|
  {
    if upTo == 0 then map[]
    else
      var name, body := scenarios.content[upTo - 2].value, scenarios.content[upTo - 1];
      var rest := SummaryUpTo(scenarios, upTo - 2, worker, workers);
      if body.kind == Mapping then rest[name := SummaryOf(body, worker, workers)] else rest
  }

  /** normalizeEnvName; `upper` is the upper-casing of a character. */
  function NormalizeEnvName(upper: char -> char, name: string): string {
    seq(|name|, i requires 0 <= i < |name| => if name[i] in {'-', ' ', '.'} then upper('_') else upper(name[i]))
  }

  /** The divided numbers of a scenario that have an environment variable. */
  datatype Quantity = Vus | TargetTps | MaxVus | BurstBuffer
  {
    /** The type of the scenarios that have it. */
    function Kind(): string {
      if Vus? then "constant_vus" else "arrival_rate"
    }

    function Key(): string {
      match this
      case Vus => "vus"
      case TargetTps => "target_tps"
      case MaxVus => "max_vus"
      case BurstBuffer => "burst_buffer"
    }

    /** Whether it is left alone unless it is positive. */
    predicate PositiveOnly() {
      BurstBuffer?
    }

    function Suffix(): string {
      match this
      case Vus => "VUS"
      case TargetTps => "TARGET_TPS"
      case MaxVus => "MAX_VUS"
      case BurstBuffer => "BURST_BUFFER"
    }
  }

  function EnvName(upper: char -> char, name: string, q: Quantity): string {
    "VUHIVE_SCENARIOS_" + NormalizeEnvName(upper, name) + "_" + q.Suffix()
  }

  function WithEnv(env: map<string, string>, variable: string, share: Option<nat>): map<string, string> {
    match share
    case Some(n) => env[variable := Itoa(n)]
    case None => env
  }

  function EnvOf(upper: char -> char, env: map<string, string>, name: string, body: Tree, worker: nat, workers: nat)
    : map<string, string>
    requires WellFormed(body)
  {
    var kind := TypeOf(body);
    if kind == "constant_vus" then
      WithEnv(env, EnvName(upper, name, Vus), FieldShare(body, "vus", false, worker, workers))
    else if kind == "arrival_rate" then
      var env1 := WithEnv(env, EnvName(upper, name, TargetTps), FieldShare(body, "target_tps", false, worker, workers));
      var env2 := WithEnv(env1, EnvName(upper, name, MaxVus), FieldShare(body, "max_vus", false, worker, workers));
      WithEnv(env2, EnvName(upper, name, BurstBuffer), FieldShare(body, "burst_buffer", true, worker, workers))
    else env
  }

  function BaseEnv(worker: nat, workers: nat): map<string, string> {
    map["VUHIVE_WORKER_INDEX" := Itoa(worker), "VUHIVE_WORKER_COUNT" := Itoa(workers),
        "VUHIVE_POD_INDEX" := Itoa(worker), "VUHIVE_POD_COUNT" := Itoa(workers)]
  }

  function EnvUpTo(upper: char -> char, scenarios: Tree, upTo: nat, worker: nat, workers: nat): map<string, string>
    requires WellFormed(scenarios) && upTo % 2 == 0 && upTo <= |scenarios.content|
  {
    if upTo == 0 then BaseEnv(worker, workers)
    else
      var name, body := scenarios.content[upTo - 2].value, scenarios.content[upTo - 1];
      var rest := EnvUpTo(upper, scenarios, upTo - 2, worker, workers);
      if body.kind == Mapping then EnvOf(upper, rest, name, body, worker, workers) else rest
  }

  /** Entry `k` is the name of a scenario and entry k + 1 its body. */
  predicate IsScenario(scenarios: Tree, k: nat) {
    k % 2 == 0 && k + 1 < |scenarios.content| && scenarios.content[k + 1].kind == Mapping
  }

  lemma {:induction false} SummaryEntry(scenarios: Tree, k: nat, upTo: nat, worker: nat, workers: nat)
    requires WellFormed(scenarios) && upTo % 2 == 0 && upTo <= |scenarios.content|
    requires IsScenario(scenarios, k) && k < upTo
    requires forall j: nat :: IsScenario(scenarios, j) && j != k ==>
               scenarios.content[j].value != scenarios.content[k].value
    ensures var name := scenarios.content[k].value;
            var summary := SummaryUpTo(scenarios, upTo, worker, workers);
            name in summary && summary[name] == SummaryOf(scenarios.content[k + 1], worker, workers)
    decreases upTo
  {
    hide SummaryOf;
    if upTo - 2 == k {
    } else {
      SummaryEntry(scenarios, k, upTo - 2, worker, workers);
      assert scenarios.content[upTo - 1].kind == Mapping ==> IsScenario(scenarios, upTo - 2);
    }
  }

  predicate Divides(body: Tree, q: Quantity)
    requires WellFormed(body)
  {
    TypeOf(body) == q.Kind() && Field(body, q.Key(), q.PositiveOnly()).Some?
  }

  /** Scenario `k` has the quantity, and its variable is written. */
  predicate Generates(scenarios: Tree, k: nat, q: Quantity)
    requires WellFormed(scenarios)
  {
    IsScenario(scenarios, k) && WellFormed(scenarios.content[k + 1]) && Divides(scenarios.content[k + 1], q)
  }

  /** No other quantity generates the variable of this one. */
  ghost predicate SoleGenerator(upper: char -> char, scenarios: Tree, k: nat, q: Quantity)
    requires WellFormed(scenarios) && k < |scenarios.content|
  {
    forall j: nat, other ::
      && Generates(scenarios, j, other)
      && EnvName(upper, scenarios.content[j].value, other) == EnvName(upper, scenarios.content[k].value, q)
      ==> j == k && other == q
  }

  /** The generated variables are pairwise distinct. */
  ghost predicate VariablesDistinct(upper: char -> char, scenarios: Tree)
    requires WellFormed(scenarios)
  {
    forall k: nat, q :: Generates(scenarios, k, q) ==> SoleGenerator(upper, scenarios, k, q)
  }

  /** The number written for a divided quantity. */
  function ShareText(body: Tree, q: Quantity, worker: nat, workers: nat): string
    requires WellFormed(body) && Divides(body, q)
  {
    Itoa(FieldShare(body, q.Key(), q.PositiveOnly(), worker, workers).value)
  }

  function WithQuantity(upper: char -> char, env: map<string, string>, name: string, body: Tree, q: Quantity,
                        worker: nat, workers: nat)
    : (result: map<string, string>)
    requires WellFormed(body)
    ensures result == if Divides(body, q) then env[EnvName(upper, name, q) := ShareText(body, q, worker, workers)]
            else env
  {
    if TypeOf(body) == q.Kind() then
      WithEnv(env, EnvName(upper, name, q), FieldShare(body, q.Key(), q.PositiveOnly(), worker, workers))
    else env
  }

  predicate Sets(upper: char -> char, name: string, body: Tree, q: Quantity, variable: string)
    requires WellFormed(body)
    ensures Sets(upper, name, body, q, variable) ==> Divides(body, q)
  {
    Divides(body, q) && EnvName(upper, name, q) == variable
  }

  function Lookup(env: map<string, string>, variable: string): Option<string> {
    if variable in env then Some(env[variable]) else None
  }

  /** What a scenario makes of one variable, quantity by quantity. */
  function VariableIn(upper: char -> char, env: map<string, string>, name: string, body: Tree, variable: string,
                      worker: nat, workers: nat)
    : Option<string>
    requires WellFormed(body)
  {
    if Sets(upper, name, body, BurstBuffer, variable) then Some(ShareText(body, BurstBuffer, worker, workers))
    else if Sets(upper, name, body, MaxVus, variable) then Some(ShareText(body, MaxVus, worker, workers))
    else if Sets(upper, name, body, TargetTps, variable) then Some(ShareText(body, TargetTps, worker, workers))
    else if Sets(upper, name, body, Vus, variable) then Some(ShareText(body, Vus, worker, workers))
    else Lookup(env, variable)
  }

  lemma WithQuantityAt(upper: char -> char, env: map<string, string>, name: string, body: Tree, q: Quantity,
                       variable: string, worker: nat,
                       workers: nat)
    requires WellFormed(body)
    ensures Lookup(WithQuantity(upper, env, name, body, q, worker, workers), variable) ==
            if Sets(upper, name, body, q, variable) then Some(ShareText(body, q, worker, workers))
            else Lookup(env, variable)
  {
    hide Divides, ShareText, EnvName, WithQuantity;
  }

  lemma EnvOfAt(upper: char -> char, env: map<string, string>, name: string, body: Tree, variable: string, worker: nat,
                workers: nat)
    requires WellFormed(body)
    ensures Lookup(EnvOf(upper, env, name, body, worker, workers), variable)
            == VariableIn(upper, env, name, body, variable, worker, workers)
  {
    hide FieldShare, EnvName, TypeOf, WithEnv, Sets, Lookup, ShareText;
    var env1 := WithQuantity(upper, env, name, body, Vus, worker, workers);
    var env2 := WithQuantity(upper, env1, name, body, TargetTps, worker, workers);
    var env3 := WithQuantity(upper, env2, name, body, MaxVus, worker, workers);
    assert EnvOf(upper, env, name, body, worker, workers)
      == WithQuantity(upper, env3, name, body, BurstBuffer, worker, workers) by {
      hide Divides;
    }
    WithQuantityAt(upper, env, name, body, Vus, variable, worker, workers);
    WithQuantityAt(upper, env1, name, body, TargetTps, variable, worker, workers);
    WithQuantityAt(upper, env2, name, body, MaxVus, variable, worker, workers);
    WithQuantityAt(upper, env3, name, body, BurstBuffer, variable, worker, workers);
  }

  /** A variable that no quantity of the scenario generates stays as it was. */
  lemma OthersKept(upper: char -> char, env: map<string, string>, name: string, body: Tree, variable: string,
                   worker: nat, workers: nat)
    requires WellFormed(body) && forall q :: !Sets(upper, name, body, q, variable)
    ensures Lookup(EnvOf(upper, env, name, body, worker, workers), variable) == Lookup(env, variable)
  {
    EnvOfAt(upper, env, name, body, variable, worker, workers);
    hide Sets, EnvOf, ShareText;
  }

  /** A variable that one quantity of the scenario alone generates holds its share. */
  lemma OwnSet(upper: char -> char, env: map<string, string>, name: string, body: Tree, q: Quantity, variable: string,
               worker: nat, workers: nat)
    requires WellFormed(body) && Sets(upper, name, body, q, variable)
    requires forall other :: Sets(upper, name, body, other, variable) ==> other == q
    ensures Lookup(EnvOf(upper, env, name, body, worker, workers), variable)
            == Some(ShareText(body, q, worker, workers))
  {
    EnvOfAt(upper, env, name, body, variable, worker, workers);
    hide Sets, EnvOf, ShareText, EnvName, TypeOf, Field, FieldShare, Lookup;
    assert q != BurstBuffer ==> !Sets(upper, name, body, BurstBuffer, variable);
    assert q != MaxVus ==> !Sets(upper, name, body, MaxVus, variable);
    assert q != TargetTps ==> !Sets(upper, name, body, TargetTps, variable);
  }

  /** The variable of a divided quantity keeps its share until the end, if no other quantity generates it. */
  lemma {:induction false} EnvEntry(upper: char -> char, scenarios: Tree, k: nat, q: Quantity, upTo: nat, worker: nat,
                                    workers: nat)
    requires WellFormed(scenarios) && upTo % 2 == 0 && upTo <= |scenarios.content|
    requires Generates(scenarios, k, q) && k < upTo && SoleGenerator(upper, scenarios, k, q)
    ensures var variable := EnvName(upper, scenarios.content[k].value, q);
            var env := EnvUpTo(upper, scenarios, upTo, worker, workers);
            Lookup(env, variable) == Some(ShareText(scenarios.content[k + 1], q, worker, workers))
    decreases upTo
  {
    hide Divides, ShareText, EnvName, EnvOf;
    var name, body := scenarios.content[upTo - 2].value, scenarios.content[upTo - 1];
    assert WellFormed(body);
    var variable := EnvName(upper, scenarios.content[k].value, q);
    var rest := EnvUpTo(upper, scenarios, upTo - 2, worker, workers);
    if body.kind == Mapping {
      forall other | Sets(upper, name, body, other, variable) ensures upTo - 2 == k && other == q {
        assert Generates(scenarios, upTo - 2, other);
      }
    }
    if upTo - 2 == k {
      OwnSet(upper, rest, name, body, q, variable, worker, workers);
    } else {
      EnvEntry(upper, scenarios, k, q, upTo - 2, worker, workers);
      if body.kind == Mapping {
        OthersKept(upper, rest, name, body, variable, worker, workers);
      }
    }
  }

  lemma KeysOfOne(upper: char -> char, env: map<string, string>, name: string, body: Tree, variable: string,
                  worker: nat, workers: nat)
    requires WellFormed(body)
    ensures variable in EnvOf(upper, env, name, body, worker, workers) <==>
            variable in env || exists q :: Sets(upper, name, body, q, variable)
  {
    EnvOfAt(upper, env, name, body, variable, worker, workers);
    hide Sets, EnvOf, ShareText;
  }

  /** The environment holds the four fixed variables and the generated ones, and nothing else. */
  lemma {:induction false} EnvKeys(upper: char -> char, scenarios: Tree, variable: string, upTo: nat, worker: nat,
                                   workers: nat)
    requires WellFormed(scenarios) && upTo % 2 == 0 && upTo <= |scenarios.content|
    ensures variable in EnvUpTo(upper, scenarios, upTo, worker, workers) <==>
            || variable in BaseEnv(worker, workers)
            || exists k: nat, q :: Generates(scenarios, k, q) && k < upTo && EnvName(upper, scenarios.content[k].value,
                                                                                     q) == variable
    decreases upTo
  {
    hide Divides, EnvName, EnvOf, BaseEnv, ShareText;
    if upTo == 0 {
    } else {
      var k := upTo - 2;
      var name, body := scenarios.content[k].value, scenarios.content[k + 1];
      EnvKeys(upper, scenarios, variable, k, worker, workers);
      assert WellFormed(body);
      if body.kind == Mapping {
        KeysOfOne(upper, EnvUpTo(upper, scenarios, k, worker, workers), name, body, variable, worker, workers);
        assert forall q :: Sets(upper, name, body, q, variable) <==>
          Generates(scenarios, k, q) && EnvName(upper, name, q) == variable;
        hide Sets;
      }
    }
  }

  lemma NotFixed(upper: char -> char, name: string, q: Quantity, worker: nat, workers: nat)
    ensures EnvName(upper, name, q) !in BaseEnv(worker, workers)
  {
    hide NormalizeEnvName, Itoa, Quantity.Suffix;
    assert EnvName(upper, name, q)[7] == 'S';
  }

  /** No scenario overwrites one of the four fixed variables: they keep the worker's index and count. */
  lemma {:induction false} FixedVariablesKept(upper: char -> char, scenarios: Tree, variable: string, upTo: nat,
                                              worker: nat, workers: nat)
    requires WellFormed(scenarios) && upTo % 2 == 0 && upTo <= |scenarios.content|
    requires variable in BaseEnv(worker, workers)
    ensures Lookup(EnvUpTo(upper, scenarios, upTo, worker, workers), variable)
            == Some(BaseEnv(worker, workers)[variable])
    decreases upTo
  {
    hide Divides, EnvOf, EnvName, BaseEnv, ShareText;
    if upTo == 0 {
    } else {
      var name, body := scenarios.content[upTo - 2].value, scenarios.content[upTo - 1];
      FixedVariablesKept(upper, scenarios, variable, upTo - 2, worker, workers);
      assert WellFormed(body);
      if body.kind == Mapping {
        forall q ensures !Sets(upper, name, body, q, variable) {
          NotFixed(upper, name, q, worker, workers);
        }
        OthersKept(upper, EnvUpTo(upper, scenarios, upTo - 2, worker, workers), name, body, variable, worker, workers);
      }
    }
  }

  lemma BaseValues(worker: nat, workers: nat)
    ensures var env := BaseEnv(worker, workers);
            && env.Keys == {"VUHIVE_WORKER_INDEX", "VUHIVE_POD_INDEX", "VUHIVE_WORKER_COUNT", "VUHIVE_POD_COUNT"}
            && env["VUHIVE_WORKER_INDEX"] == env["VUHIVE_POD_INDEX"] == Itoa(worker)
            && env["VUHIVE_WORKER_COUNT"] == env["VUHIVE_POD_COUNT"] == Itoa(workers)
  {
    hide Itoa;
  }

  /** The four fixed variables hold the worker's index and the number of workers, each twice. */
  lemma FixedVariables(upper: char -> char, scenarios: Tree, worker: nat, workers: nat)
    requires WellFormed(scenarios) && |scenarios.content| % 2 == 0
    ensures var env := EnvUpTo(upper, scenarios, |scenarios.content|, worker, workers);
            && Lookup(env, "VUHIVE_WORKER_INDEX") == Lookup(env, "VUHIVE_POD_INDEX") == Some(Itoa(worker))
            && Lookup(env, "VUHIVE_WORKER_COUNT") == Lookup(env, "VUHIVE_POD_COUNT") == Some(Itoa(workers))
  {
    BaseValues(worker, workers);
    hide BaseEnv, EnvUpTo, Itoa;
    FixedVariablesKept(upper, scenarios, "VUHIVE_WORKER_INDEX", |scenarios.content|, worker, workers);
    FixedVariablesKept(upper, scenarios, "VUHIVE_POD_INDEX", |scenarios.content|, worker, workers);
    FixedVariablesKept(upper, scenarios, "VUHIVE_WORKER_COUNT", |scenarios.content|, worker, workers);
    FixedVariablesKept(upper, scenarios, "VUHIVE_POD_COUNT", |scenarios.content|, worker, workers);
  }

  /** How the variables of a scenario are called. */
  lemma VariableNames(upper: char -> char, name: string)
    ensures var prefix := "VUHIVE_SCENARIOS_" + NormalizeEnvName(upper, name) + "_";
            && EnvName(upper, name, Vus) == prefix + "VUS"
            && EnvName(upper, name, TargetTps) == prefix + "TARGET_TPS"
            && EnvName(upper, name, MaxVus) == prefix + "MAX_VUS"
            && EnvName(upper, name, BurstBuffer) == prefix + "BURST_BUFFER"
  {
  }

  /** Normalized names have no dash, blank or dot, if upper-casing makes none; normalizing twice is doing it once. */
  lemma NormalizedName(upper: char -> char, name: string)
    requires upper('_') == '_'
    requires forall c :: upper(upper(c)) == upper(c) && (upper(c) in {'-', ' ', '.'} ==> c == upper(c))
    ensures var normal := NormalizeEnvName(upper, name);
            && |normal| == |name|
            && (forall i :: 0 <= i < |name| ==>
                  (normal[i] == '_' <==> name[i] in {'-', ' ', '.'} || upper(name[i]) == '_'))
            && (forall i :: 0 <= i < |name| ==> normal[i] == '_' || normal[i] == upper(name[i]))
            && NormalizeEnvName(upper, normal) == normal
  {
    var normal := NormalizeEnvName(upper, name);
    forall i | 0 <= i < |name| ensures NormalizeEnvName(upper, normal)[i] == normal[i] {
    }
  }

  lemma {:induction false} ScenarioTargetsIncluded(at: Path, scenarios: Tree, k: nat, upTo: nat)
    requires WellFormed(scenarios) && upTo % 2 == 0 && upTo <= |scenarios.content|
    requires IsScenario(scenarios, k) && k < upTo
    ensures ScenarioTargets(at + [k + 1], scenarios.content[k + 1]) <= ScenariosTargets(at, scenarios, upTo)
    decreases upTo
  {
    hide ScenarioTargets;
    if upTo - 2 == k {
    } else {
      ScenarioTargetsIncluded(at, scenarios, k, upTo - 2);
    }
  }

  /** The variable of a divided quantity holds the very text at its place in the tree. */
  ghost predicate VariableRepeats(upper: char -> char, env: map<string, string>, u: Tree, place: Path, name: string,
                                  body: Tree, q: Quantity)
    requires WellFormed(body)
  {
    match Field(body, q.Key(), q.PositiveOnly())
    case Some(j) =>
      HasPath(u, place + [j]) && Lookup(env, EnvName(upper, name, q)) == Some(At(u, place + [j]).value)
    case None => false
  }

  lemma QuantityTarget(at: Path, body: Tree, q: Quantity)
    requires WellFormed(body) && Divides(body, q)
    ensures at + [Field(body, q.Key(), q.PositiveOnly()).value] in ScenarioTargets(at, body)
  {
    hide TypeOf, Field;
  }

  /**
   The environment repeats the tree: a variable that one quantity alone generates holds the very text written
   for it into the worker's tree. With pairwise distinct variables, these are all but the fixed ones.
   */
  lemma EnvMatchesTree(upper: char -> char, t: Tree, u: Tree, k: nat, q: Quantity, worker: nat, workers: nat)
    requires WellFormed(t) && ScenariosPath(t).Some? && Divided(t, u, Targets(t), worker, workers)
    requires var scenarios := ScenariosOf(t);
             Generates(scenarios, k, q) && SoleGenerator(upper, scenarios, k, q)
    ensures var at := ScenariosPath(t).value;
            var scenarios := ScenariosOf(t);
            var env := EnvUpTo(upper, scenarios, |scenarios.content|, worker, workers);
            VariableRepeats(upper, env, u, at + [k + 1], scenarios.content[k].value, scenarios.content[k + 1], q)
  {
    hide Atoi, Itoa, Share, EnvName, SoleGenerator, ScenariosPath, EnvUpTo, ScenariosTargets, SettingsTargets, TypeOf;
    hide Quantity.Key;
    var at := ScenariosPath(t).value;
    var scenarios := ScenariosOf(t);
    var body := scenarios.content[k + 1];
    PathStep(t, at, k + 1);
    EnvEntry(upper, scenarios, k, q, |scenarios.content|, worker, workers);
    var j := Field(body, q.Key(), q.PositiveOnly()).value;
    PathStep(t, at + [k + 1], j);
    ScenarioTargetsIncluded(at, scenarios, k, |scenarios.content|);
    QuantityTarget(at + [k + 1], body, q);
  }

  /**
   The whole environment, when the generated variables are pairwise distinct: each variable is a fixed one with
   the worker's index or count, or the variable of a quantity, with the text the worker's tree has for it.
   */
  lemma EnvironmentMatchesTree(upper: char -> char, t: Tree, u: Tree, variable: string, worker: nat, workers: nat)
    requires WellFormed(t) && ScenariosPath(t).Some? && Divided(t, u, Targets(t), worker, workers)
    requires VariablesDistinct(upper, ScenariosOf(t))
    ensures var at := ScenariosPath(t).value;
            var scenarios := ScenariosOf(t);
            var env := EnvUpTo(upper, scenarios, |scenarios.content|, worker, workers);
            variable in env <==>
              || (variable in BaseEnv(worker, workers)
                  && Lookup(env, variable) == Some(BaseEnv(worker, workers)[variable]))
              || exists k: nat, q ::
                   && Generates(scenarios, k, q) && EnvName(upper, scenarios.content[k].value, q) == variable
                   && VariableRepeats(upper, env, u, at + [k + 1], scenarios.content[k].value, scenarios.content[k + 1],
                                      q)
  {
    hide WellFormed, Divided, Targets, HasPath, At, ScenariosOf, ScenariosPath, EnvUpTo, BaseEnv, EnvName,
         VariableRepeats, Divides, SoleGenerator;
    var at := ScenariosPath(t).value;
    var scenarios := ScenariosOf(t);
    EnvKeys(upper, scenarios, variable, |scenarios.content|, worker, workers);
    if variable in BaseEnv(worker, workers) {
      FixedVariablesKept(upper, scenarios, variable, |scenarios.content|, worker, workers);
    } else if k: nat, q :| Generates(scenarios, k, q) && EnvName(upper, scenarios.content[k].value, q) == variable {
      EnvMatchesTree(upper, t, u, k, q, worker, workers);
    }
  }

  /** What the tree `u` says at a field of a scenario that `t` has: 0 where nothing is divided. */
  function Written(u: Tree, at: Path, body: Tree, key: string, positiveOnly: bool): int
    requires WellFormed(body)
  {
    match Field(body, key, positiveOnly)
    case Some(j) => if HasPath(u, at + [j]) then Atoi(At(u, at + [j]).value) else 0
    case None => 0
  }

  lemma WrittenIsShare(t: Tree, u: Tree, at: Path, key: string, positiveOnly: bool, worker: nat, workers: nat)
    requires WellFormed(t) && ScenariosPath(t).Some? && Divided(t, u, Targets(t), worker, workers) && worker < workers
    requires HasPath(t, at) && WellFormed(At(t, at)) && FieldTargets(at, At(t, at), key, positiveOnly) <= Targets(t)
    ensures Written(u, at, At(t, at), key, positiveOnly)
            == OrZero(FieldShare(At(t, at), key, positiveOnly, worker, workers))
  {
    hide Atoi, Itoa, Share, ScenariosPath, Targets;
    var field := Field(At(t, at), key, positiveOnly);
    if field.Some? {
      PathStep(t, at, field.value);
      assert at + [field.value] in Targets(t);
      var total := Atoi(At(t, at + [field.value]).value);
      SharesAreFair(total, workers, worker, worker);
      AtoiOfItoa(Share(total, worker, workers));
    }
  }

  ghost predicate RepeatsStages(stageTargets: seq<nat>, u: Tree, place: Path, stages: Tree)
    requires WellFormed(stages)
  {
    && |stageTargets| == |stages.content|
    && forall s :: 0 <= s < |stages.content| ==>
         WellFormed(stages.content[s]) && stageTargets[s] == Written(u, place + [s], stages.content[s], "target", false)
  }

  /**
   A summary entry gives the scenario's type and the numbers the tree has for it, stage by stage for ramping
   scenarios.
   */
  ghost predicate Repeats(sp: ScenarioPartition, u: Tree, place: Path, body: Tree)
    requires WellFormed(body)
  {
    && sp.scenarioType == TypeOf(body)
    && sp.vus == (if TypeOf(body) == "constant_vus" then Written(u, place, body, "vus", false) else 0)
    && (TypeOf(body) != "arrival_rate" ==> sp.targetTps == sp.maxVus == sp.burstBuffer == 0)
    && (TypeOf(body) != "ramping_vus" ==> sp.stageTargets == [])
    && (TypeOf(body) == "arrival_rate" ==>
          && sp.targetTps == Written(u, place, body, "target_tps", false)
          && sp.maxVus == Written(u, place, body, "max_vus", false)
          && sp.burstBuffer == Written(u, place, body, "burst_buffer", true))
    && (TypeOf(body) == "ramping_vus" ==>
          match KeyIndex(body, "stages")
          case Some(j) =>
            body.content[j].kind == Sequence ==>
              RepeatsStages(sp.stageTargets, u, place + [j], body.content[j])
          case None => true)
  }

  lemma {:induction false} StageTargetsIncluded(at: Path, stages: Tree, s: nat, upTo: nat)
    requires WellFormed(stages) && s < upTo <= |stages.content|
    ensures WellFormed(stages.content[s])
    ensures FieldTargets(at + [s], stages.content[s], "target", false) <= StageTargets(at, stages, upTo)
  {
    if upTo - 1 == s {
    } else {
      StageTargetsIncluded(at, stages, s, upTo - 1);
    }
  }

  lemma StagesRepeated(t: Tree, u: Tree, place: Path, worker: nat, workers: nat)
    requires WellFormed(t) && ScenariosPath(t).Some? && Divided(t, u, Targets(t), worker, workers) && worker < workers
    requires HasPath(t, place) && WellFormed(At(t, place))
    requires StageTargets(place, At(t, place), |At(t, place).content|) <= Targets(t)
    ensures RepeatsStages(StageShares(At(t, place), worker, workers), u, place, At(t, place))
  {
    hide Atoi, Itoa, Share, ScenariosPath, Targets, TypeOf, Divided, Written, FieldShare, FieldTargets, StageTargets,
         HasPath;
    var stages := At(t, place);
    forall s | 0 <= s < |stages.content|
      ensures WellFormed(stages.content[s])
      ensures Written(u, place + [s], stages.content[s], "target", false) == StageShares(stages, worker, workers)[s]
    {
      PathStep(t, place, s);
      StageTargetsIncluded(place, stages, s, |stages.content|);
      WrittenIsShare(t, u, place + [s], "target", false, worker, workers);
    }
  }

  lemma FieldsRepeated(t: Tree, u: Tree, place: Path, worker: nat, workers: nat)
    requires WellFormed(t) && ScenariosPath(t).Some? && Divided(t, u, Targets(t), worker, workers) && worker < workers
    requires HasPath(t, place) && WellFormed(At(t, place)) && ScenarioTargets(place, At(t, place)) <= Targets(t)
    ensures Repeats(SummaryOf(At(t, place), worker, workers), u, place, At(t, place))
  {
    hide Atoi, Itoa, Share, ScenariosPath, Targets, TypeOf, Divided, Written, FieldShare, FieldTargets, StageTargets,
         HasPath,
         StageShares, RepeatsStages, KeyFrom;
    var body := At(t, place);
    if TypeOf(body) == "constant_vus" {
      WrittenIsShare(t, u, place, "vus", false, worker, workers);
    } else if TypeOf(body) == "arrival_rate" {
      WrittenIsShare(t, u, place, "target_tps", false, worker, workers);
      WrittenIsShare(t, u, place, "max_vus", false, worker, workers);
      WrittenIsShare(t, u, place, "burst_buffer", true, worker, workers);
    } else if TypeOf(body) == "ramping_vus" && KeyIndex(body, "stages").Some? {
      var j := KeyIndex(body, "stages").value;
      if body.content[j].kind == Sequence {
        PathStep(t, place, j);
        StagesRepeated(t, u, place + [j], worker, workers);
      }
    }
  }

  /**
   The summary repeats the tree: when scenario names are distinct, each scenario's entry matches the worker's
   tree.
   */
  lemma SummaryMatchesTree(t: Tree, u: Tree, k: nat, worker: nat, workers: nat)
    requires WellFormed(t) && ScenariosPath(t).Some? && Divided(t, u, Targets(t), worker, workers) && worker < workers
    requires var scenarios := ScenariosOf(t);
             && IsScenario(scenarios, k)
             && forall j: nat :: IsScenario(scenarios, j) && j != k ==>
                  scenarios.content[j].value != scenarios.content[k].value
    ensures var at := ScenariosPath(t).value;
            var scenarios := ScenariosOf(t);
            var name, body := scenarios.content[k].value, scenarios.content[k + 1];
            var summary := SummaryUpTo(scenarios, |scenarios.content|, worker, workers);
            && WellFormed(body)
            && name in summary
            && Repeats(summary[name], u, at + [k + 1], body)
  {
    hide ScenariosPath, ScenariosTargets, SettingsTargets, Divided, Repeats, SummaryOf, ScenarioTargets, HasPath;
    var at := ScenariosPath(t).value;
    var scenarios := ScenariosOf(t);
    PathStep(t, at, k + 1);
    SummaryEntry(scenarios, k, |scenarios.content|, worker, workers);
    ScenarioTargetsIncluded(at, scenarios, k, |scenarios.content|);
    FieldsRepeated(t, u, at + [k + 1], worker, workers);
  }
}
