/**
 The workload partitioner: per worker it clones the configuration tree and rewrites scalars of the
 clone in place. The methods here do that on the heap and are proved to produce what PartitionSpec says.
 */
module WorkloadPartitioner {
  import opened Text
  import opened YamlTree
  import opened PartitionSpec

  datatype Error = ErrValidation | ErrInvalidWorkerCount | ErrInvalidWorkerIndex | ErrNoScenariosDefined

  datatype Result<T> = Ok(value: T) | Err(error: Error)

  /** What the parser made of the raw bytes. */
  datatype RawConfig = Blank | Malformed | Parsed(root: Node)

  datatype WorkloadPartition = WorkloadPartition(workerIndex: nat, workerCount: nat, config: Node,
                                                 envOverrides: map<string, string>,
                                                 scenarios: map<string, ScenarioPartition>)

  lemma ViewOf(node: Node)
    requires node.Valid()
    ensures node in node.Repr
    ensures forall k :: 0 <= k < |node.content| ==>
              node.content[k] in node.Repr && node.content[k].Valid() && node.content[k].Repr < node.Repr
    ensures var t := node.View();
            && t.kind == node.kind && t.marks == node.marks && t.value == node.value && |t.content| == |node.content|
            && forall k :: 0 <= k < |node.content| ==> t.content[k] == node.content[k].View()
  {
  }

  /** Trees that share no node, within `repr`, and the values they form. */
  ghost predicate ForestOf(nodes: seq<Node>, repr: set<Node>, views: seq<Tree>)
    reads repr
  {
    && |nodes| == |views|
    && (forall i :: 0 <= i < |nodes| ==>
          && nodes[i] in repr && nodes[i] in nodes[i].Repr && nodes[i].Repr <= repr
          && nodes[i].Valid() && nodes[i].View() == views[i])
    && forall i, j :: 0 <= i < j < |nodes| ==> nodes[i].Repr !! nodes[j].Repr
  }

  lemma NoTrees()
    ensures ForestOf([], {}, [])
  {
  }

  lemma ForestGrows(nodes: seq<Node>, repr: set<Node>, views: seq<Tree>, node: Node)
    requires ForestOf(nodes, repr, views) && node.Valid() && node.Repr !! repr
    ensures ForestOf(nodes + [node], repr + node.Repr, views + [node.View()])
  {
    hide Node.View;
    assert node in node.Repr;
  }

  lemma Assembled(clone: Node, repr: set<Node>, t: Tree)
    requires clone !in repr && clone.Repr == {clone} + repr
    requires ForestOf(clone.content, repr, t.content)
    requires clone.kind == t.kind && clone.marks == t.marks && clone.value == t.value
    ensures clone.Valid() && clone.View() == t
  {
    assert clone.Valid();
    assert clone.View().content == t.content;
  }

  method CloneYamlNode(node: Node) returns (clone: Node)
    requires node.Valid()
    ensures clone.Valid() && fresh(clone.Repr)
    ensures clone.View() == node.View()
    decreases node.Repr
  {
    hide Node.Valid, Node.View, ForestOf;
    clone := new Node(node.kind, node.marks, node.value);
    var children: seq<Node> := [];
    ghost var repr: set<Node> := {};
    ghost var t := node.View();
    ViewOf(node);
    NoTrees();
    for k := 0 to |node.content|
      invariant fresh(repr) && clone !in repr
      invariant clone.kind == node.kind && clone.marks == node.marks && clone.value == node.value
      invariant ForestOf(children, repr, t.content[..k])
    {
      var child := CloneYamlNode(node.content[k]);
      assert t.content[..k + 1] == t.content[..k] + [child.View()];
      ForestGrows(children, repr, t.content[..k], child);
      children := children + [child];
      repr := repr + child.Repr;
    }
    assert t.content[..|node.content|] == t.content;
    clone.content := children;
    clone.Repr := {clone} + repr;
    Assembled(clone, repr, t);
  }

  method FindNodeInMapping(node: Node, key: string) returns (found: Node?)
    requires node.Valid() && WellFormed(node.View())
    ensures match KeyIndex(node.View(), key)
            case Some(j) => found == node.content[j]
            case None => found == null
  {
    if node.kind != Mapping {
      return null;
    }
    ghost var content := node.View().content;
    var i := 0;
    while i < |node.content|
      invariant i % 2 == 0 && i <= |node.content|
      invariant KeyFrom(content, key, 0) == KeyFrom(content, key, i)
    {
      assert content[i] == node.content[i].View();
      if node.content[i].value == key {
        return node.content[i + 1];
      }
      i := i + 2;
    }
    return null;
  }

  method FindNodeByKey(node: Node, key: string) returns (found: Node?)
    requires node.Valid() && WellFormed(node.View())
    ensures match FindPath(node.View(), key)
            case Some(p) => found != null && node.Leads(p, found)
            case None => found == null
    decreases node.Repr
  {
    if node.kind == Document {
      ghost var t := node.View();
      for k := 0 to |node.content|
        invariant FindInDocument(t, key, 0) == FindInDocument(t, key, k)
      {
        assert t.content[k] == node.content[k].View();
        found := FindNodeByKey(node.content[k], key);
        if found != null {
          ghost var p := FindPath(t.content[k], key).value;
          assert ([k] + p)[1..] == p;
          return;
        }
      }
      return null;
    }
    found := FindNodeInMapping(node, key);
    if found != null {
      ghost var j := KeyIndex(node.View(), key).value;
      assert [j][1..] == [];
    }
  }

  // The ghost bookkeeping of one clone: `t` is the configuration, `done` the paths rewritten so far.

  /** Keys stand at even indices and are never rewritten. */
  ghost predicate OddEnds(done: set<Path>) {
    forall p :: p in done ==> p != [] && p[|p| - 1] % 2 == 1
  }

  ghost predicate NoneBelow(done: set<Path>, at: Path) {
    forall p :: p in done ==> !(at <= p)
  }

  ghost predicate Rewriting(t: Tree, clone: Node, done: set<Path>, worker: nat, workers: nat)
    reads clone, clone.Repr
  {
    && clone.Valid()
    && WellFormed(t)
    && OddEnds(done)
    && Divided(t, clone.View(), done, worker, workers)
  }

  lemma LabelsChain(a: Tree, b: Tree, c: Tree)
    requires SameLabel(a, b) && SameLabel(b, c)
    ensures SameLabel(a, c)
  {
  }

  lemma DividedStep(t: Tree, u: Tree, done: set<Path>, q: Path, worker: nat, workers: nat)
    requires Divided(t, u, done, worker, workers) && HasPath(t, q) && q !in done
    ensures Divided(t, SetValue(u, q, Itoa(Share(Atoi(At(t, q).value), worker, workers))), done + {q}, worker, workers)
  {
    var v := Itoa(Share(Atoi(At(t, q).value), worker, workers));
    hide Share, Atoi, Itoa, SameLabel;
    forall p ensures HasPath(SetValue(u, q, v), p) <==> HasPath(t, p) {
      SetValueAt(u, q, v, p);
    }
    forall p | HasPath(t, p)
      ensures var w := SetValue(u, q, v);
              && SameLabel(At(w, p), At(t, p))
              && At(w, p).value ==
                 if p in done + {q} then Itoa(Share(Atoi(At(t, p).value), worker, workers)) else At(t, p).value
    {
      SetValueAt(u, q, v, p);
      assert SameLabel(At(SetValue(u, q, v), p), At(u, p)) && SameLabel(At(u, p), At(t, p));
      LabelsChain(At(SetValue(u, q, v), p), At(u, p), At(t, p));
    }
  }

  lemma {:induction false} SameKeysFound(a: seq<Tree>, b: seq<Tree>, key: string, k: nat)
    requires |a| == |b| && |a| % 2 == 0 && k % 2 == 0 && k <= |a|
    requires forall i :: 0 <= i < |a| && i % 2 == 0 ==> a[i].value == b[i].value
    ensures KeyFrom(a, key, k) == KeyFrom(b, key, k)
    decreases |a| - k
  {
    if k == |a| {
    } else {
      SameKeysFound(a, b, key, k + 2);
    }
  }

  /** Keys of a rewritten tree are found where they are in the original. */
  lemma LookupKept(t: Tree, u: Tree, done: set<Path>, at: Path, key: string, worker: nat, workers: nat)
    requires WellFormed(t) && OddEnds(done) && Divided(t, u, done, worker, workers) && HasPath(t, at)
    ensures At(t, at).kind == Mapping ==> |At(t, at).content| % 2 == 0
    ensures HasPath(u, at) && SameLabel(At(u, at), At(t, at))
    ensures KeyIndex(At(u, at), key) == KeyIndex(At(t, at), key)
  {
    WellFormedAt(t, at);
    var a, b := At(t, at), At(u, at);
    forall k | 0 <= k < |a.content| && k % 2 == 0 ensures a.content[k].value == b.content[k].value {
      PathStep(t, at, k);
      PathStep(u, at, k);
      assert (at + [k])[|at|] == k;
    }
    if a.kind == Mapping {
      SameKeysFound(a.content, b.content, key, 0);
    }
  }

  lemma {:induction false} WellFormedKept(t: Tree, u: Tree)
    requires WellFormed(t)
    requires forall p :: HasPath(t, p) ==> HasPath(u, p) && SameLabel(At(u, p), At(t, p))
    ensures WellFormed(u)
    decreases u
  {
    assert HasPath(t, []);
    assert SameLabel(At(u, []), At(t, []));
    forall k | 0 <= k < |u.content| ensures WellFormed(u.content[k]) {
      forall p | HasPath(t.content[k], p)
        ensures HasPath(u.content[k], p) && SameLabel(At(u.content[k], p), At(t.content[k], p))
      {
        assert ([k] + p)[1..] == p;
        assert HasPath(t, [k] + p);
      }
      WellFormedKept(t.content[k], u.content[k]);
    }
  }

  /** Writing a share into the clone's node at `q`. */
  lemma RewriteStep(t: Tree, clone: Node, done: set<Path>, q: Path, node: Node, before: map<Node, string>, worker: nat,
                    workers: nat)
    requires clone.Valid() && WellFormed(t) && OddEnds(done)
    requires clone.Repr <= before.Keys && Divided(t, clone.ViewWith(before), done, worker, workers)
    requires clone.Leads(q, node) && HasPath(t, q) && q !in done && q != [] && q[|q| - 1] % 2 == 1
    requires node.value == Itoa(Share(Atoi(At(t, q).value), worker, workers))
    requires forall x :: x in clone.Repr && x != node ==> x.value == before[x]
    ensures Rewriting(t, clone, done + {q}, worker, workers)
  {
    hide Share, Atoi, Itoa, Divided, HasPath, At, WellFormed, Node.Valid, Node.View, Node.ViewWith, Node.Leads;
    clone.LeadsTo(q, node);
    clone.ViewAfterWrite(q, node, before, node.value);
    clone.ViewHolds(before[node := node.value]);
    DividedStep(t, clone.ViewWith(before), done, q, worker, workers);
  }

  /**
   In the clone, a field of the mapping at `at` stands where the configuration has it, and holds what it holds
   there.
   */
  lemma FieldPlace(t: Tree, clone: Node, done: set<Path>, at: Path, body: Node, key: string, worker: nat, workers: nat)
    requires Rewriting(t, clone, done, worker, workers) && clone.Leads(at, body) && HasPath(t, at)
    ensures WellFormed(At(t, at))
    ensures body in clone.Repr && body.Valid() && WellFormed(body.View()) && SameLabel(body.View(), At(t, at))
    ensures At(t, at).kind == Mapping ==> |At(t, at).content| % 2 == 0
    ensures KeyIndex(body.View(), key) == KeyIndex(At(t, at), key)
    ensures match KeyIndex(At(t, at), key)
            case Some(j) =>
              && j < |body.content|
              && clone.Leads(at + [j], body.content[j])
              && body.content[j] in clone.Repr
              && HasPath(t, at + [j])
              && At(t, at + [j]) == At(t, at).content[j]
              && (at + [j] !in done ==> body.content[j].value == At(t, at).content[j].value)
              && SameLabel(body.content[j].View(), At(t, at).content[j])
            case None => true
  {
    hide Share, Atoi, Itoa;
    clone.LeadsTo(at, body);
    LookupKept(t, clone.View(), done, at, key, worker, workers);
    WellFormedKept(t, clone.View());
    WellFormedAt(clone.View(), at);
    WellFormedAt(t, at);
    if KeyIndex(At(t, at), key).Some? {
      var j := KeyIndex(At(t, at), key).value;
      PathStep(t, at, j);
      clone.LeadsStep(at, body, j);
      clone.LeadsTo(at + [j], body.content[j]);
    }
  }

  /** Look a field up, divide it, write the share back. */
  method PartitionField(clone: Node, ghost t: Tree, ghost done: set<Path>, ghost at: Path, body: Node, key: string,
                        positiveOnly: bool, worker: nat, workers: nat)
    returns (share: Option<nat>, ghost now: set<Path>)
    requires Rewriting(t, clone, done, worker, workers)
    requires clone.Leads(at, body) && HasPath(t, at) && WellFormed(At(t, at))
    requires FieldTargets(at, At(t, at), key, false) !! done
    modifies clone.Repr`value
    ensures Rewriting(t, clone, now, worker, workers)
    ensures now == done + FieldTargets(at, At(t, at), key, positiveOnly)
    ensures share == FieldShare(At(t, at), key, positiveOnly, worker, workers)
  {
    hide Atoi, Itoa, Share, Divided, WellFormed, HasPath, At, KeyIndex, OddEnds;
    share, now := None, done;
    FieldPlace(t, clone, done, at, body, key, worker, workers);
    var node := FindNodeInMapping(body, key);
    if node != null {
      ghost var j := KeyIndex(At(t, at), key).value;
      ghost var q := at + [j];
      assert q in FieldTargets(at, At(t, at), key, false);
      var original := Atoi(node.value);
      if positiveOnly && original <= 0 {
        return;
      }
      ghost var before := map x | x in clone.Repr :: x.value;
      clone.ViewHolds(before);
      share := Some(Share(original, worker, workers));
      node.value := Itoa(share.value);
      now := done + {q};
      RewriteStep(t, clone, done, q, node, before, worker, workers);
    }
  }

  lemma NoStages(at: Path, items: Tree)
    requires WellFormed(items)
    ensures StageTargets(at, items, 0) == {}
  {
  }

  /** The children of a node of the clone, and those of the configuration's node at the same path. */
  lemma Children(t: Tree, clone: Node, done: set<Path>, at: Path, node: Node, worker: nat, workers: nat)
    requires Rewriting(t, clone, done, worker, workers) && clone.Leads(at, node) && HasPath(t, at)
    ensures WellFormed(At(t, at)) && |node.content| == |At(t, at).content| && node.kind == At(t, at).kind
    ensures node in clone.Repr && node.Valid() && clone.Valid()
    ensures forall s :: 0 <= s < |node.content| ==>
              && clone.Leads(at + [s], node.content[s])
              && HasPath(t, at + [s])
              && At(t, at + [s]) == At(t, at).content[s]
              && WellFormed(At(t, at).content[s])
              && node.content[s] in clone.Repr
              && node.content[s].kind == At(t, at).content[s].kind
              && (at + [s] !in done ==> node.content[s].value == At(t, at).content[s].value)
  {
    hide Share, Atoi, Itoa;
    clone.LeadsTo(at, node);
    assert SameLabel(At(clone.View(), at), At(t, at));
    WellFormedAt(t, at);
    forall s | 0 <= s < |node.content|
      ensures clone.Leads(at + [s], node.content[s]) && HasPath(t, at + [s]) && At(t, at + [s]) == At(t, at).content[s]
      ensures node.content[s] in clone.Repr && node.content[s].kind == At(t, at).content[s].kind
      ensures at + [s] !in done ==> node.content[s].value == At(t, at).content[s].value
    {
      PathStep(t, at, s);
      clone.LeadsStep(at, node, s);
      clone.LeadsTo(at + [s], node.content[s]);
      assert SameLabel(At(clone.View(), at + [s]), At(t, at + [s]));
    }
  }

  lemma NoField(at: Path, item: Tree, key: string, worker: nat, workers: nat)
    requires item.kind != Mapping
    ensures FieldTargets(at, item, key, false) == {} && FieldShare(item, key, false, worker, workers) == None
  {
  }

  /** A field below child `s` is not among what lies below earlier children. */
  lemma FieldOutside(earlier: set<Path>, done: set<Path>, at: Path, s: nat, items: Tree, key: string)
    requires WellFormed(items) && s < |items.content|
    requires NoneBelow(done, at) && Under(earlier, at, s)
    ensures WellFormed(items.content[s])
    ensures FieldTargets(at + [s], items.content[s], key, false) !! done + earlier
    ensures NoneBelow(done + earlier, at + [s])
  {
    forall p | p in done + earlier ensures !(at + [s] <= p) {
      BelowChild(at, s, p);
    }
    assert forall j: nat :: at + [s] <= at + [s] + [j];
  }

  /** One stage; one that is no mapping, or has no target, counts as 0. */
  method PartitionStage(clone: Node, ghost t: Tree, ghost done: set<Path>, ghost before: set<Path>, ghost at: Path,
                        stages: Node, s: nat, worker: nat, workers: nat)
    returns (share: nat, ghost now: set<Path>)
    requires Rewriting(t, clone, before, worker, workers)
    requires clone.Leads(at, stages) && HasPath(t, at) && WellFormed(At(t, at)) && NoneBelow(done, at)
    requires s < |stages.content| && |stages.content| == |At(t, at).content|
    requires before == done + StageTargets(at, At(t, at), s)
    modifies clone.Repr`value
    ensures Rewriting(t, clone, now, worker, workers)
    ensures now == done + StageTargets(at, At(t, at), s + 1)
    ensures share == StageShares(At(t, at), worker, workers)[s]
  {
    hide Rewriting, Node.Leads, WellFormed, HasPath, At, FieldTargets, FieldShare, Under, NoneBelow;
    ghost var items := At(t, at);
    Children(t, clone, before, at, stages, worker, workers);
    var item := stages.content[s];
    if item.kind != Mapping {
      NoField(at + [s], items.content[s], "target", worker, workers);
      return 0, before;
    }
    StageTargetsUnder(at, items, s);
    FieldOutside(StageTargets(at, items, s), done, at, s, items, "target");
    var found: Option<nat>;
    found, now := PartitionField(clone, t, before, at + [s], item, "target", false, worker, workers);
    share := match found case Some(n) => n case None => 0;
  }

  method PartitionStages(clone: Node, ghost t: Tree, ghost done: set<Path>, ghost at: Path, stages: Node, worker: nat,
                         workers: nat)
    returns (stageTargets: seq<nat>, ghost now: set<Path>)
    requires Rewriting(t, clone, done, worker, workers)
    requires clone.Leads(at, stages) && HasPath(t, at) && WellFormed(At(t, at)) && NoneBelow(done, at)
    modifies clone.Repr`value
    ensures Rewriting(t, clone, now, worker, workers)
    ensures now == done + StageTargets(at, At(t, at), |At(t, at).content|)
    ensures stageTargets == StageShares(At(t, at), worker, workers)
  {
    hide Rewriting, Node.Leads, StageTargets, FieldShare, WellFormed, HasPath, At;
    ghost var items := At(t, at);
    Children(t, clone, done, at, stages, worker, workers);
    NoStages(at, items);
    stageTargets := [];
    now := done;
    for s := 0 to |stages.content|
      invariant Rewriting(t, clone, now, worker, workers)
      invariant clone.Leads(at, stages)
      invariant now == done + StageTargets(at, items, s)
      invariant stageTargets == StageShares(items, worker, workers)[..s]
    {
      var share;
      share, now := PartitionStage(clone, t, done, now, at, stages, s, worker, workers);
      stageTargets := stageTargets + [share];
    }
  }

  lemma KeysApart(body: Tree, key: string, other: string)
    requires WellFormed(body) && key != other && KeyIndex(body, key).Some? && KeyIndex(body, other).Some?
    ensures KeyIndex(body, key).value != KeyIndex(body, other).value
  {
    hide KeyIndex;
  }

  lemma PlacesApart(at: Path, j: nat, k: nat)
    requires j != k
    ensures at + [j] != at + [k]
  {
    assert (at + [j])[|at|] == j && (at + [k])[|at|] == k;
  }

  /** Fields of one mapping under different keys are different scalars. */
  lemma FieldsApart(at: Path, body: Tree, key: string, other: string, positiveOnly: bool)
    requires WellFormed(body) && key != other
    ensures FieldTargets(at, body, key, false) !! FieldTargets(at, body, other, positiveOnly)
  {
    hide Atoi, KeyIndex;
    if KeyIndex(body, key).Some? && KeyIndex(body, other).Some? {
      KeysApart(body, key, other);
      PlacesApart(at, KeyIndex(body, key).value, KeyIndex(body, other).value);
    }
  }

  lemma FieldBelow(done: set<Path>, at: Path, body: Tree, key: string)
    requires WellFormed(body) && NoneBelow(done, at)
    ensures FieldTargets(at, body, key, false) !! done
  {
    assert forall j: nat :: at <= at + [j];
  }

  lemma NotBelow(done: set<Path>, at: Path, j: nat)
    requires NoneBelow(done, at)
    ensures at + [j] !in done && NoneBelow(done, at + [j])
  {
    forall p | p in done ensures !(at + [j] <= p) {
      BelowChild(at, j, p);
    }
    assert at <= at + [j];
  }

  method PartitionArrivalRate(upper: char -> char, clone: Node, ghost t: Tree, ghost done: set<Path>, ghost at: Path,
                              name: string, body: Node,
                              env: map<string, string>, worker: nat, workers: nat)
    returns (sp: ScenarioPartition, envOverrides: map<string, string>, ghost now: set<Path>)
    requires Rewriting(t, clone, done, worker, workers)
    requires clone.Leads(at, body) && HasPath(t, at) && WellFormed(At(t, at)) && NoneBelow(done, at)
    requires TypeOf(At(t, at)) == "arrival_rate"
    modifies clone.Repr`value
    ensures Rewriting(t, clone, now, worker, workers)
    ensures now == done + ScenarioTargets(at, At(t, at))
    ensures sp == SummaryOf(At(t, at), worker, workers)
    ensures envOverrides == EnvOf(upper, env, name, At(t, at), worker, workers)
  {
    hide Rewriting, Node.Leads, WellFormed, HasPath, At, FieldTargets, FieldShare, NoneBelow, TypeOf, WithEnv, EnvName;
    ghost var scenario := At(t, at);
    FieldBelow(done, at, scenario, "target_tps");
    FieldBelow(done, at, scenario, "max_vus");
    FieldBelow(done, at, scenario, "burst_buffer");
    FieldsApart(at, scenario, "max_vus", "target_tps", false);
    FieldsApart(at, scenario, "burst_buffer", "target_tps", false);
    FieldsApart(at, scenario, "burst_buffer", "max_vus", false);
    var tps, maxVus, burst;
    tps, now := PartitionField(clone, t, done, at, body, "target_tps", false, worker, workers);
    maxVus, now := PartitionField(clone, t, now, at, body, "max_vus", false, worker, workers);
    burst, now := PartitionField(clone, t, now, at, body, "burst_buffer", true, worker, workers);
    sp := ScenarioPartition("arrival_rate", 0, OrZero(tps), OrZero(maxVus), OrZero(burst), []);
    envOverrides := WithEnv(env, EnvName(upper, name, TargetTps), tps);
    envOverrides := WithEnv(envOverrides, EnvName(upper, name, MaxVus), maxVus);
    envOverrides := WithEnv(envOverrides, EnvName(upper, name, BurstBuffer), burst);
  }

  method ScenarioType(clone: Node, ghost t: Tree, ghost done: set<Path>, ghost at: Path, body: Node, ghost worker: nat,
                      ghost workers: nat)
    returns (scenarioType: string)
    requires Rewriting(t, clone, done, worker, workers)
    requires clone.Leads(at, body) && HasPath(t, at) && WellFormed(At(t, at)) && NoneBelow(done, at)
    ensures scenarioType == TypeOf(At(t, at))
  {
    hide Rewriting, Node.Leads, HasPath, At, NoneBelow, KeyIndex;
    FieldPlace(t, clone, done, at, body, "type", worker, workers);
    var typeNode := FindNodeInMapping(body, "type");
    scenarioType := "constant_vus";
    if typeNode != null {
      NotBelow(done, at, KeyIndex(At(t, at), "type").value);
      scenarioType := TrimSpace(typeNode.value);
    }
  }

  method PartitionRamping(clone: Node, ghost t: Tree, ghost done: set<Path>, ghost at: Path, body: Node, worker: nat,
                        workers: nat)
    returns (sp: ScenarioPartition, ghost now: set<Path>)
    requires Rewriting(t, clone, done, worker, workers)
    requires clone.Leads(at, body) && HasPath(t, at) && WellFormed(At(t, at)) && NoneBelow(done, at)
    requires TypeOf(At(t, at)) == "ramping_vus"
    modifies clone.Repr`value
    ensures Rewriting(t, clone, now, worker, workers)
    ensures now == done + ScenarioTargets(at, At(t, at))
    ensures sp == SummaryOf(At(t, at), worker, workers)
  {
    hide Rewriting, Node.Leads, HasPath, At, NoneBelow, KeyIndex, TypeOf, StageShares, StageTargets;
    sp, now := ScenarioPartition("ramping_vus", 0, 0, 0, 0, []), done;
    FieldPlace(t, clone, done, at, body, "stages", worker, workers);
    var stages := FindNodeInMapping(body, "stages");
    if stages != null && stages.kind == Sequence {
      ghost var j := KeyIndex(At(t, at), "stages").value;
      NotBelow(done, at, j);
      var targets;
      targets, now := PartitionStages(clone, t, now, at + [j], stages, worker, workers);
      sp := sp.(stageTargets := targets);
    }
  }

  /** The body of the loop over the scenarios. */
  method PartitionScenario(upper: char -> char, clone: Node, ghost t: Tree, ghost done: set<Path>, ghost at: Path,
                           name: string, body: Node,
                           env: map<string, string>, worker: nat, workers: nat)
    returns (sp: ScenarioPartition, envOverrides: map<string, string>, ghost now: set<Path>)
    requires Rewriting(t, clone, done, worker, workers)
    requires clone.Leads(at, body) && HasPath(t, at) && WellFormed(At(t, at)) && NoneBelow(done, at)
    modifies clone.Repr`value
    ensures Rewriting(t, clone, now, worker, workers)
    ensures now == done + ScenarioTargets(at, At(t, at))
    ensures sp == SummaryOf(At(t, at), worker, workers)
    ensures envOverrides == EnvOf(upper, env, name, At(t, at), worker, workers)
  {
    hide Rewriting, Node.Leads, WellFormed, HasPath, At, FieldTargets, FieldShare, NoneBelow, KeyIndex, TypeOf, EnvName,
         WithEnv;
    var scenarioType := ScenarioType(clone, t, done, at, body, worker, workers);
    sp := ScenarioPartition(scenarioType, 0, 0, 0, 0, []);
    envOverrides, now := env, done;
    if scenarioType == "constant_vus" {
      FieldBelow(done, at, At(t, at), "vus");
      var vus;
      vus, now := PartitionField(clone, t, now, at, body, "vus", false, worker, workers);
      sp := sp.(vus := OrZero(vus));
      envOverrides := WithEnv(envOverrides, EnvName(upper, name, Vus), vus);
    } else if scenarioType == "arrival_rate" {
      sp, envOverrides, now := PartitionArrivalRate(upper, clone, t, done, at, name, body, env, worker, workers);
    } else if scenarioType == "ramping_vus" {
      sp, now := PartitionRamping(clone, t, done, at, body, worker, workers);
    }
  }

  ghost predicate SameLookups(t: Tree, u: Tree) {
    && SameLabel(t, u)
    && (forall k :: 0 <= k < |t.content| && t.kind == Mapping && k % 2 == 0 ==>
        t.content[k].value == u.content[k].value)
    && forall k :: 0 <= k < |t.content| ==> SameLookups(t.content[k], u.content[k])
  }

  lemma {:induction false} LookupsKept(t: Tree, u: Tree, v: Tree, at: Path, done: set<Path>, worker: nat, workers: nat)
    requires OddEnds(done) && Divided(t, v, done, worker, workers) && HasPath(t, at)
    requires u == At(v, at)
    ensures SameLookups(At(t, at), u)
    decreases u
  {
    hide Share, Atoi, Itoa;
    assert HasPath(v, at) && SameLabel(At(v, at), At(t, at));
    forall k | 0 <= k < |u.content|
      ensures SameLookups(At(t, at).content[k], u.content[k])
      ensures k % 2 == 0 ==> At(t, at).content[k].value == u.content[k].value
    {
      PathStep(t, at, k);
      PathStep(v, at, k);
      assert (at + [k])[|at|] == k;
      LookupsKept(t, u.content[k], v, at + [k], done, worker, workers);
    }
  }

  lemma {:induction false} SamePathFound(t: Tree, u: Tree, key: string)
    requires WellFormed(t) && WellFormed(u) && SameLookups(t, u)
    ensures FindPath(t, key) == FindPath(u, key)
    decreases t, 1, 0
  {
    if t.kind == Document {
      SamePathFoundIn(t, u, key, 0);
    } else if t.kind == Mapping {
      SameKeysFound(t.content, u.content, key, 0);
    }
  }

  lemma {:induction false} SamePathFoundIn(t: Tree, u: Tree, key: string, k: nat)
    requires WellFormed(t) && WellFormed(u) && SameLookups(t, u) && k <= |t.content|
    ensures FindInDocument(t, key, k) == FindInDocument(u, key, k)
    decreases t, 0, |t.content| - k
  {
    if k == |t.content| {
    } else {
      SamePathFound(t.content[k], u.content[k], key);
      SamePathFoundIn(t, u, key, k + 1);
    }
  }

  lemma PrefixesNest(a: Path, b: Path, p: Path)
    requires a <= p
    ensures b <= p ==> a <= b || b <= a
  {
    if b <= p {
      assert a == p[..|a|] && b == p[..|b|];
    }
  }

  /** The settings do not lie below the scenarios, nor the scenarios below the settings. */
  lemma SettingsApart(t: Tree, done: set<Path>, bound: nat)
    requires WellFormed(t) && ScenariosPath(t).Some? && Under(done, ScenariosPath(t).value, bound)
    requires FindPath(t, "settings").Some?
    ensures NoneBelow(done, FindPath(t, "settings").value)
  {
    var at, settings := ScenariosPath(t).value, FindPath(t, "settings").value;
    FoundApart(t, "scenarios", "settings");
    FoundApart(t, "settings", "scenarios");
    forall p | p in done ensures !(settings <= p) {
      PrefixesNest(at, settings, p);
    }
  }

  /** The specification of one worker's partition: its tree, environment and summary. */
  ghost predicate PartitionOf(upper: char -> char, t: Tree, wp: WorkloadPartition, worker: nat, workers: nat)
    requires WellFormed(t) && ScenariosPath(t).Some?
    reads wp.config, wp.config.Repr
  {
    var scenarios := At(t, ScenariosPath(t).value);
    && wp.workerIndex == worker && wp.workerCount == workers
    && wp.config.Valid()
    && Divided(t, wp.config.View(), Targets(t), worker, workers)
    && wp.scenarios == SummaryUpTo(scenarios, |scenarios.content|, worker, workers)
    && wp.envOverrides == EnvUpTo(upper, scenarios, |scenarios.content|, worker, workers)
  }

  /** PartitionOf leaves no choice but which nodes make up the tree: partitions of one worker agree in all they hold. */
  lemma PartitionsAgree(upper: char -> char, t: Tree, a: WorkloadPartition, b: WorkloadPartition, worker: nat,
                        workers: nat)
    requires WellFormed(t) && ScenariosPath(t).Some?
    requires PartitionOf(upper, t, a, worker, workers) && PartitionOf(upper, t, b, worker, workers)
    ensures a.config.View() == b.config.View()
    ensures a.envOverrides == b.envOverrides && a.scenarios == b.scenarios
    ensures a.workerIndex == b.workerIndex && a.workerCount == b.workerCount
  {
    hide Targets, SummaryUpTo, EnvUpTo, ScenariosPath;
    DividedUnique(t, a.config.View(), b.config.View(), Targets(t), worker, workers);
  }

  /** The trees the workers get. */
  ghost function Trees(partitions: seq<WorkloadPartition>): (trees: seq<Tree>)
    requires forall wp :: wp in partitions ==> wp.config.Valid()
    reads set wp | wp in partitions :: wp.config
    reads set wp, node | wp in partitions && node in wp.config.Repr :: node
    ensures |trees| == |partitions|
    ensures forall i :: 0 <= i < |partitions| ==> trees[i] == partitions[i].config.View()
  {
    if partitions == [] then []
    else
      assert partitions[0] in partitions;
      [partitions[0].config.View()] + Trees(partitions[1..])
  }

  /** What the workers get together is conserved. */
  lemma WorkloadConserved(upper: char -> char, t: Tree, partitions: seq<WorkloadPartition>, p: Path)
    requires WellFormed(t) && ScenariosPath(t).Some? && HasPath(t, p) && |partitions| >= 1
    requires forall i :: 0 <= i < |partitions| ==> PartitionOf(upper, t, partitions[i], i, |partitions|)
    ensures (forall wp :: wp in partitions ==> wp.config.Valid()) && Conserved(t, Trees(partitions), p)
  {
    hide Divided, Targets, ScenariosPath, Conserved, SummaryUpTo, EnvUpTo;
    Conservation(t, Trees(partitions), p);
  }

  /** The state of the loop over the scenarios before entry `i` of their mapping. */
  ghost predicate Entries(upper: char -> char, tree: Tree, at: Path, i: nat, done: set<Path>, scenarios: map<string,
                          ScenarioPartition>,
                          envOverrides: map<string, string>, worker: nat, workers: nat)
  {
    && WellFormed(tree) && i % 2 == 0 && i <= |tree.content|
    && done == ScenariosTargets(at, tree, i)
    && scenarios == SummaryUpTo(tree, i, worker, workers)
    && envOverrides == EnvUpTo(upper, tree, i, worker, workers)
  }

  lemma NoEntries(upper: char -> char, tree: Tree, at: Path, worker: nat, workers: nat)
    requires WellFormed(tree)
    ensures Entries(upper, tree, at, 0, {}, map[], BaseEnv(worker, workers), worker, workers)
  {
  }

  lemma Untouched(t: Tree, clone: Node, worker: nat, workers: nat)
    requires WellFormed(t) && clone.Valid() && clone.View() == t
    ensures Rewriting(t, clone, {}, worker, workers)
  {
  }

  lemma ScenariosStart(upper: char -> char, t: Tree, clone: Node, scenariosNode: Node, worker: nat, workers: nat)
    requires WellFormed(t) && ScenariosPath(t).Some? && clone.Valid() && clone.View() == t
    requires clone.Leads(ScenariosPath(t).value, scenariosNode)
    ensures var at := ScenariosPath(t).value;
            && HasPath(t, at) && At(t, at).kind == Mapping
            && |scenariosNode.content| == |At(t, at).content| && |scenariosNode.content| % 2 == 0
            && Rewriting(t, clone, {}, worker, workers)
            && Entries(upper, At(t, at), at, 0, {}, map[], BaseEnv(worker, workers), worker, workers)
  {
    hide Rewriting, HasPath, At, BaseEnv;
    Untouched(t, clone, worker, workers);
    Children(t, clone, {}, ScenariosPath(t).value, scenariosNode, worker, workers);
    NoEntries(upper, At(t, ScenariosPath(t).value), ScenariosPath(t).value, worker, workers);
  }

  lemma EntriesMean(upper: char -> char, tree: Tree, at: Path, i: nat, done: set<Path>, scenarios: map<string,
                    ScenarioPartition>,
                    envOverrides: map<string, string>, worker: nat, workers: nat)
    requires Entries(upper, tree, at, i, done, scenarios, envOverrides, worker, workers) && i == |tree.content|
    ensures WellFormed(tree) && i % 2 == 0 && done == ScenariosTargets(at, tree, |tree.content|)
    ensures scenarios == SummaryUpTo(tree, |tree.content|, worker, workers)
    ensures envOverrides == EnvUpTo(upper, tree, |tree.content|, worker, workers)
  {
  }

  lemma EvenMapping(t: Tree)
    requires WellFormed(t) && t.kind == Mapping
    ensures |t.content| % 2 == 0
  {
  }

  lemma ScenarioOutside(done: set<Path>, at: Path, i: nat)
    requires Under(done, at, i) && i % 2 == 0
    ensures at + [i] !in done && NoneBelow(done, at + [i + 1])
  {
    assert (at + [i])[|at|] == i;
    forall p | p in done ensures !(at + [i + 1] <= p) {
      BelowChild(at, i + 1, p);
    }
  }

  method PartitionEntry(upper: char -> char, clone: Node, ghost t: Tree, ghost at: Path, scenariosNode: Node, i: nat,
                        ghost done: set<Path>,
                        scenariosSoFar: map<string, ScenarioPartition>, envSoFar: map<string, string>, worker: nat,
                        workers: nat)
    returns (scenarios: map<string, ScenarioPartition>, envOverrides: map<string, string>, ghost now: set<Path>)
    requires Rewriting(t, clone, done, worker, workers)
    requires clone.Leads(at, scenariosNode) && HasPath(t, at)
    requires i < |scenariosNode.content| && At(t, at).kind == Mapping
    requires Entries(upper, At(t, at), at, i, done, scenariosSoFar, envSoFar, worker, workers)
    modifies clone.Repr`value
    ensures Rewriting(t, clone, now, worker, workers)
    ensures Entries(upper, At(t, at), at, i + 2, now, scenarios, envOverrides, worker, workers)
  {
    hide Rewriting, Node.Leads, Node.Valid, Node.View, WellFormed, HasPath, At, BaseEnv, ScenarioTargets, SummaryOf,
         EnvOf, NoneBelow;
    Children(t, clone, done, at, scenariosNode, worker, workers);
    assert |At(t, at).content| % 2 == 0 by { EvenMapping(At(t, at)); }
    ScenariosTargetsUnder(at, At(t, at), i);
    ScenarioOutside(done, at, i);
    scenarios, envOverrides, now := scenariosSoFar, envSoFar, done;
    var scenarioName := scenariosNode.content[i].value;
    var scenarioBody := scenariosNode.content[i + 1];
    if scenarioBody.kind == Mapping {
      var sp;
      sp, envOverrides, now :=
        PartitionScenario(upper, clone, t, now, at + [i + 1], scenarioName, scenarioBody, envOverrides, worker,
                          workers);
      scenarios := scenarios[scenarioName := sp];
    }
  }

  method PartitionScenarios(upper: char -> char, clone: Node, ghost t: Tree, scenariosNode: Node, worker: nat,
                            workers: nat)
    returns (scenarios: map<string, ScenarioPartition>, envOverrides: map<string, string>, ghost now: set<Path>)
    requires WellFormed(t) && ScenariosPath(t).Some? && clone.Valid() && clone.View() == t
    requires clone.Leads(ScenariosPath(t).value, scenariosNode)
    modifies clone.Repr`value
    ensures Rewriting(t, clone, now, worker, workers)
    ensures var at := ScenariosPath(t).value;
            var tree := At(t, at);
            && now == ScenariosTargets(at, tree, |tree.content|)
            && scenarios == SummaryUpTo(tree, |tree.content|, worker, workers)
            && envOverrides == EnvUpTo(upper, tree, |tree.content|, worker, workers)
  {
    hide *;
    ScenariosStart(upper, t, clone, scenariosNode, worker, workers);
    ghost var at := ScenariosPath(t).value;
    ghost var tree := At(t, at);
    scenarios, envOverrides, now := map[], BaseEnv(worker, workers), {};
    var i := 0;
    while i < |scenariosNode.content|
      invariant i % 2 == 0 && i <= |scenariosNode.content|
      invariant Rewriting(t, clone, now, worker, workers) && clone.Leads(at, scenariosNode)
      invariant Entries(upper, tree, at, i, now, scenarios, envOverrides, worker, workers)
    {
      scenarios, envOverrides, now :=
        PartitionEntry(upper, clone, t, at, scenariosNode, i, now, scenarios, envOverrides, worker, workers);
      i := i + 2;
    }
    EntriesMean(upper, tree, at, i, now, scenarios, envOverrides, worker, workers);
  }

  /** The node under the scenarios key, if it is a mapping. */
  method LocateScenarios(root: Node) returns (found: Node?)
    requires root.Valid() && WellFormed(root.View())
    ensures match ScenariosPath(root.View())
            case Some(p) => found != null && root.Leads(p, found)
            case None => found == null
  {
    found := FindNodeByKey(root, "scenarios");
    if found != null {
      root.LeadsTo(FindPath(root.View(), "scenarios").value, found);
      if found.kind != Mapping {
        found := null;
      }
    }
  }

  lemma Partitioned(upper: char -> char, t: Tree, wp: WorkloadPartition, done: set<Path>, worker: nat, workers: nat)
    requires Rewriting(t, wp.config, done, worker, workers)
    requires WellFormed(t) && ScenariosPath(t).Some? && done == Targets(t)
    requires wp.workerIndex == worker && wp.workerCount == workers
    requires var tree := At(t, ScenariosPath(t).value);
             && wp.scenarios == SummaryUpTo(tree, |tree.content|, worker, workers)
             && wp.envOverrides == EnvUpTo(upper, tree, |tree.content|, worker, workers)
    ensures PartitionOf(upper, t, wp, worker, workers)
  {
    hide Divided, ScenariosPath, SummaryUpTo, EnvUpTo, Targets;
  }

  lemma SettingsKept(t: Tree, clone: Node, done: set<Path>, worker: nat, workers: nat)
    requires Rewriting(t, clone, done, worker, workers)
    ensures clone.Valid() && WellFormed(clone.View()) && FindPath(clone.View(), "settings") == FindPath(t, "settings")
  {
    hide Share, Atoi, Itoa;
    assert HasPath(t, []) && At(t, []) == t;
    WellFormedKept(t, clone.View());
    LookupsKept(t, clone.View(), clone.View(), [], done, worker, workers);
    SamePathFound(t, clone.View(), "settings");
  }

  method PartitionSettings(clone: Node, ghost t: Tree, ghost done: set<Path>, worker: nat, workers: nat)
    returns (ghost now: set<Path>)
    requires Rewriting(t, clone, done, worker, workers)
    requires WellFormed(t) && ScenariosPath(t).Some?
    requires var at := ScenariosPath(t).value; done == ScenariosTargets(at, At(t, at), |At(t, at).content|)
    modifies clone.Repr`value
    ensures Rewriting(t, clone, now, worker, workers)
    ensures now == Targets(t)
  {
    ghost var at := ScenariosPath(t).value;
    ScenariosTargetsUnder(at, At(t, at), |At(t, at).content|);
    SettingsKept(t, clone, done, worker, workers);
    now := done;
    var settingsNode := FindNodeByKey(clone, "settings");
    if settingsNode != null {
      ghost var place := FindPath(t, "settings").value;
      SettingsApart(t, done, |At(t, at).content|);
      WellFormedAt(t, place);
      FieldPlace(t, clone, done, place, settingsNode, "concurrency", worker, workers);
      if settingsNode.kind == Mapping {
        FieldBelow(done, place, At(t, place), "concurrency");
        hide *;
        var share;
        share, now := PartitionField(clone, t, done, place, settingsNode, "concurrency", false, worker, workers);
      }
    }
  }

  /** partitionForIndex, without the final encoding. */
  method PartitionForIndex(upper: char -> char, root: Node, worker: nat, workers: nat)
    returns (r: Result<WorkloadPartition>)
    requires root.Valid() && WellFormed(root.View())
    requires worker < workers
    ensures ScenariosPath(root.View()).None? ==> r == Err(ErrNoScenariosDefined)
    ensures ScenariosPath(root.View()).Some? ==>
              r.Ok? && fresh(r.value.config.Repr) && PartitionOf(upper, root.View(), r.value, worker, workers)
  {
    hide *;
    ghost var t := root.View();
    var clone := CloneYamlNode(root);
    var scenariosNode := LocateScenarios(clone);
    if scenariosNode == null {
      return Err(ErrNoScenariosDefined);
    }
    var scenarios, envOverrides;
    ghost var done;
    scenarios, envOverrides, done := PartitionScenarios(upper, clone, t, scenariosNode, worker, workers);
    done := PartitionSettings(clone, t, done, worker, workers);
    r := Ok(WorkloadPartition(worker, workers, clone, envOverrides, scenarios));
    Partitioned(upper, t, r.value, done, worker, workers);
  }

  ghost predicate HasScenarios(t: Tree)
    requires WellFormed(t)
  {
    ScenariosPath(t).Some? && At(t, ScenariosPath(t).value).content != []
  }

  /** Under the first key scenarios there is a mapping that is not empty. */
  lemma ScenariosMean(t: Tree)
    requires WellFormed(t)
    ensures HasScenarios(t) <==>
            match FindPath(t, "scenarios")
            case Some(p) => At(t, p).kind == Mapping && |At(t, p).content| > 0
            case None => false
  {
    hide FindPath;
  }

  /** The node under the scenarios key, when it is a mapping that is not empty. */
  method ScenariosDefined(root: Node) returns (defined: bool)
    requires root.Valid() && WellFormed(root.View())
    ensures defined <==> HasScenarios(root.View())
  {
    var scenariosNode := LocateScenarios(root);
    if scenariosNode != null {
      root.LeadsTo(ScenariosPath(root.View()).value, scenariosNode);
    }
    defined := scenariosNode != null && |scenariosNode.content| > 0;
  }

  /** The partition of one worker. The parsed tree is not changed: the method modifies nothing. */
  method PartitionForWorker(upper: char -> char, raw: RawConfig, workerIndex: int, workerCount: int)
    returns (r: Result<WorkloadPartition>)
    requires raw.Parsed? ==> raw.root.Valid() && WellFormed(raw.root.View())
    ensures raw.Blank? ==> r == Err(ErrValidation)
    ensures !raw.Blank? && workerCount < 1 ==> r == Err(ErrInvalidWorkerCount)
    ensures !raw.Blank? && workerCount >= 1 && !(0 <= workerIndex < workerCount) ==> r == Err(ErrInvalidWorkerIndex)
    ensures !raw.Blank? && 0 <= workerIndex < workerCount ==>
              match raw
              case Malformed => r == Err(ErrValidation)
              case Parsed(root) =>
                if HasScenarios(root.View()) then
                  r.Ok? && fresh(r.value.config.Repr)
                    && PartitionOf(upper, root.View(), r.value, workerIndex, workerCount)
                else r == Err(ErrNoScenariosDefined)
  {
    if raw.Blank? {
      return Err(ErrValidation);
    }
    if workerCount < 1 {
      return Err(ErrInvalidWorkerCount);
    }
    if workerIndex < 0 || workerIndex >= workerCount {
      return Err(ErrInvalidWorkerIndex);
    }
    if raw.Malformed? {
      return Err(ErrValidation);
    }
    var defined := ScenariosDefined(raw.root);
    if !defined {
      return Err(ErrNoScenariosDefined);
    }
    r := PartitionForIndex(upper, raw.root, workerIndex, workerCount);
  }

  method AllPartitions(upper: char -> char, root: Node, workers: nat) returns (partitions: seq<WorkloadPartition>)
    requires root.Valid() && WellFormed(root.View()) && ScenariosPath(root.View()).Some?
    ensures |partitions| == workers
    ensures forall i :: 0 <= i < workers ==>
              fresh(partitions[i].config.Repr) && PartitionOf(upper, root.View(), partitions[i], i, workers)
    ensures forall i, j :: 0 <= i < j < workers ==> partitions[i].config.Repr !! partitions[j].config.Repr
  {
    hide *;
    ghost var t := root.View();
    partitions := [];
    for i := 0 to workers
      invariant |partitions| == i
      invariant forall k :: 0 <= k < i ==>
        fresh(partitions[k].config.Repr) && PartitionOf(upper, t, partitions[k], k, workers)
      invariant forall j, k :: 0 <= j < k < i ==> partitions[j].config.Repr !! partitions[k].config.Repr
    {
      // scenarios are defined, so no worker's partition fails
      var wp := PartitionForIndex(upper, root, i, workers);
      partitions := partitions + [wp.value];
    }
  }

  /**
   The partitions of all workers. Element i is what PartitionForWorker returns for index i: both satisfy
   PartitionOf, and PartitionsAgree says that it leaves no choice. The workers' trees share no node with each other
   or with the input, and together they conserve every number.
   */
  method PartitionWorkload(upper: char -> char, raw: RawConfig, workerCount: int)
    returns (r: Result<seq<WorkloadPartition>>)
    requires raw.Parsed? ==> raw.root.Valid() && WellFormed(raw.root.View())
    ensures raw.Blank? ==> r == Err(ErrValidation)
    ensures !raw.Blank? && workerCount < 1 ==> r == Err(ErrInvalidWorkerCount)
    ensures !raw.Blank? && workerCount >= 1 ==>
              match raw
              case Malformed => r == Err(ErrValidation)
              case Parsed(root) =>
                if HasScenarios(root.View()) then
                  && r.Ok? && |r.value| == workerCount
                  && (forall i :: 0 <= i < workerCount ==>
                        fresh(r.value[i].config.Repr) && PartitionOf(upper, root.View(), r.value[i], i, workerCount))
                  && (forall i, j :: 0 <= i < j < workerCount ==> r.value[i].config.Repr !! r.value[j].config.Repr)
                  && (forall wp :: wp in r.value ==> wp.config.Valid())
                  && forall p :: HasPath(root.View(), p) ==>
                       Conserved(root.View(), Trees(r.value), p)
                else r == Err(ErrNoScenariosDefined)
  {
    if raw.Blank? {
      return Err(ErrValidation);
    }
    if workerCount < 1 {
      return Err(ErrInvalidWorkerCount);
    }
    if raw.Malformed? {
      return Err(ErrValidation);
    }
    var defined := ScenariosDefined(raw.root);
    if !defined {
      return Err(ErrNoScenariosDefined);
    }
    var partitions := AllPartitions(upper, raw.root, workerCount);
    r := Ok(partitions);
    forall p | HasPath(raw.root.View(), p)
      ensures (forall wp :: wp in partitions ==> wp.config.Valid())
              && Conserved(raw.root.View(), Trees(partitions), p)
    {
      WorkloadConserved(upper, raw.root.View(), partitions, p);
    }
  }
}
