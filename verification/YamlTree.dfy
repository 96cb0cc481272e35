/**
 Parsed YAML: nodes on the heap, the tree value they form, and paths into it. Alias nodes are not
 part of this model, so nodes form trees.
 */
module YamlTree {

  datatype Kind = Zero | Document | Sequence | Mapping | Scalar

  /** What the partitioner copies from node to node and never looks at. */
  datatype Marks = Marks(style: int, tag: string, anchor: string, headComment: string, lineComment: string,
                         footComment: string, line: int, column: int)

  datatype Tree = Tree(kind: Kind, marks: Marks, value: string, content: seq<Tree>)

  /** A child index at each level. */
  type Path = seq<nat>

  predicate HasPath(t: Tree, p: Path)
    decreases |p|
  {
    p == [] || (p[0] < |t.content| && HasPath(t.content[p[0]], p[1..]))
  }

  function At(t: Tree, p: Path): Tree
    requires HasPath(t, p)
    decreases |p|
  {
    if p == [] then t else At(t.content[p[0]], p[1..])
  }

  lemma {:induction false} PathStep(t: Tree, p: Path, k: nat)
    requires HasPath(t, p) && k < |At(t, p).content|
    ensures HasPath(t, p + [k]) && At(t, p + [k]) == At(t, p).content[k]
    decreases |p|
  {
    if p == [] {
      assert (p + [k])[1..] == [];
    } else {
      assert (p + [k])[1..] == p[1..] + [k];
      PathStep(t.content[p[0]], p[1..], k);
    }
  }

  /** What a parser guarantees: a mapping lists its keys and values in turn. */
  predicate WellFormed(t: Tree) {
    && (t.kind == Mapping ==> |t.content| % 2 == 0)
    && forall k :: 0 <= k < |t.content| ==> WellFormed(t.content[k])
  }

  lemma {:induction false} WellFormedAt(t: Tree, p: Path)
    requires WellFormed(t) && HasPath(t, p)
    ensures WellFormed(At(t, p))
    decreases |p|
  {
    if p == [] {
    } else {
      WellFormedAt(t.content[p[0]], p[1..]);
    }
  }

  function SetValue(t: Tree, p: Path, v: string): Tree
    requires HasPath(t, p)
    decreases |p|
  {
    if p == [] then t.(value := v)
    else t.(content := t.content[p[0] := SetValue(t.content[p[0]], p[1..], v)])
  }

  /** A node and its label, without its children. */
  predicate SameLabel(t: Tree, u: Tree) {
    t.kind == u.kind && t.marks == u.marks && |t.content| == |u.content|
  }

  /** SetValue changes the value at one path and nothing else. */
  lemma {:induction false} SetValueAt(t: Tree, p: Path, v: string, q: Path)
    requires HasPath(t, p)
    ensures HasPath(SetValue(t, p, v), q) <==> HasPath(t, q)
    ensures HasPath(t, q) ==>
              && SameLabel(At(SetValue(t, p, v), q), At(t, q))
              && At(SetValue(t, p, v), q).value == if p == q then v else At(t, q).value
    decreases |q|
  {
    if q == [] || p == [] || q[0] != p[0] {
    } else {
      SetValueAt(t.content[p[0]], p[1..], v, q[1..]);
      assert p == [p[0]] + p[1..] && q == [q[0]] + q[1..];
    }
  }

  class Node {
    var kind: Kind
    var marks: Marks
    var value: string
    var content: seq<Node>
    ghost var Repr: set<Node>

    constructor (kind: Kind, marks: Marks, value: string)
      ensures this.kind == kind && this.marks == marks && this.value == value && content == [] && Repr == {this}
    {
      this.kind, this.marks, this.value, content, Repr := kind, marks, value, [], {this};
    }

    /** The node and its descendants form a tree that shares no node. */
    ghost predicate Valid()
      reads this`content, this`Repr, Repr`content, Repr`Repr
      decreases Repr
    {
      && this in Repr
      && (forall k :: 0 <= k < |content| ==>
            && content[k] in Repr
            && content[k].Repr <= Repr
            && this !in content[k].Repr
            && content[k].Valid())
      && forall j, k :: 0 <= j < k < |content| ==> content[j].Repr !! content[k].Repr
    }

    ghost function View(): Tree
      requires Valid()
      reads this, Repr
      decreases Repr
    {
      Tree(kind, marks, value,
           seq(|content|, k requires 0 <= k < |content| && Valid() reads this, Repr => content[k].View()))
    }

    /** Following the child indices of `p` from this node ends at `node`. */
    ghost predicate Leads(p: Path, node: Node)
      requires Valid()
      reads this`content, this`Repr, Repr`content, Repr`Repr
      decreases |p|
    {
      if p == [] then node == this
      else p[0] < |content| && content[p[0]].Leads(p[1..], node)
    }

    lemma {:induction false} LeadsTo(p: Path, node: Node)
      requires Valid() && Leads(p, node)
      ensures node in Repr && node.Valid() && node.Repr <= Repr
      ensures HasPath(View(), p) && At(View(), p) == node.View()
      decreases |p|
    {
      if p == [] {
      } else {
        content[p[0]].LeadsTo(p[1..], node);
      }
    }

    lemma {:induction false} LeadsStep(p: Path, node: Node, k: nat)
      requires Valid() && Leads(p, node) && k < |node.content|
      ensures Leads(p + [k], node.content[k])
      decreases |p|
    {
      if p == [] {
        assert (p + [k])[1..] == [];
      } else {
        assert (p + [k])[1..] == p[1..] + [k];
        content[p[0]].LeadsTo(p[1..], node);
        content[p[0]].LeadsStep(p[1..], node, k);
      }
    }

    /** The tree this node would form if its nodes held the given values. */
    ghost function ViewWith(values: map<Node, string>): Tree
      requires Valid() && Repr <= values.Keys
      reads this`content, this`Repr, this`kind, this`marks, Repr`content, Repr`Repr, Repr`kind, Repr`marks
      decreases Repr, 1, 0
    {
      Tree(kind, marks, values[this], ViewsFrom(values, 0))
    }

    ghost function ViewsFrom(values: map<Node, string>, k: nat): (views: seq<Tree>)
      requires Valid() && Repr <= values.Keys && k <= |content|
      reads this`content, this`Repr, this`kind, this`marks, Repr`content, Repr`Repr, Repr`kind, Repr`marks
      ensures |views| == |content| - k
      ensures forall i :: 0 <= i < |views| ==> views[i] == content[k + i].ViewWith(values)
      decreases Repr, 0, |content| - k
    {
      if k == |content| then [] else [content[k].ViewWith(values)] + ViewsFrom(values, k + 1)
    }

    lemma {:induction false} ViewHolds(values: map<Node, string>)
      requires Valid() && Repr <= values.Keys
      requires forall x :: x in Repr ==> values[x] == x.value
      ensures View() == ViewWith(values)
      decreases Repr
    {
      forall k | 0 <= k < |content| ensures content[k].View() == content[k].ViewWith(values) {
        content[k].ViewHolds(values);
      }
    }

    /** Values of nodes elsewhere do not matter. */
    lemma {:induction false} ViewWithLocal(values: map<Node, string>, others: map<Node, string>)
      requires Valid() && Repr <= values.Keys && Repr <= others.Keys
      requires forall x :: x in Repr ==> values[x] == others[x]
      ensures ViewWith(values) == ViewWith(others)
      decreases Repr
    {
      forall k | 0 <= k < |content| ensures content[k].ViewWith(values) == content[k].ViewWith(others) {
        content[k].ViewWithLocal(values, others);
      }
    }

    /**
     Writing the value of the node at `p` writes the value at `p` of the tree, and only there: the nodes share
     nothing.
     */
    lemma {:induction false} ViewAfterWrite(p: Path, node: Node, values: map<Node, string>, v: string)
      requires Valid() && Leads(p, node) && Repr <= values.Keys
      ensures HasPath(ViewWith(values), p)
      ensures ViewWith(values[node := v]) == SetValue(ViewWith(values), p, v)
      decreases |p|
    {
      var after := values[node := v];
      LeadsTo(p, node);
      if p == [] {
        forall k | 0 <= k < |content| ensures content[k].ViewWith(after) == content[k].ViewWith(values) {
          content[k].ViewWithLocal(after, values);
        }
      } else {
        content[p[0]].ViewAfterWrite(p[1..], node, values, v);
        content[p[0]].LeadsTo(p[1..], node);
        forall k | 0 <= k < |content| && k != p[0] ensures content[k].ViewWith(after) == content[k].ViewWith(values) {
          assert content[k].Repr !! content[p[0]].Repr;
          content[k].ViewWithLocal(after, values);
        }
      }
      assert ViewWith(after).content == SetValue(ViewWith(values), p, v).content;
    }
  }
}
