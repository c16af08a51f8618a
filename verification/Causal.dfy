/** The typed causal graph exchanged by every component (causal_graph.go). */
module Causal {
  import Ratios

  /** A role is a string in the program; five of them have a meaning. */
  datatype RoleTag = Evidence | Confounder | Intervention | Outcome | Unknown | Other(name: string)

  type Role = r: RoleTag | r.Other? ==> !IsNamedRole(r.name) witness Evidence

  predicate IsNamedRole(name: string) {
    name == "evidence" || name == "confounder" || name == "intervention" || name == "outcome" || name == "unknown"
  }

  /** The role's text. */
  function RoleName(r: Role): string {
    match r
    case Evidence => "evidence"
    case Confounder => "confounder"
    case Intervention => "intervention"
    case Outcome => "outcome"
    case Unknown => "unknown"
    case Other(name) => name
  }

  lemma RoleNameInjective(a: Role, b: Role)
    requires RoleName(a) == RoleName(b)
    ensures a == b
  {
    assert "outcome"[0] != "unknown"[0];
  }

  /** The zero value of a role. */
  const NO_ROLE: Role := Other("")

  datatype CausalNode = CausalNode(
    id: string,
    role: Role,
    summary: string,
    parents: seq<string>,
    atomRefs: seq<string>,
    weight: real,
    meta: map<string, string>)

  datatype CausalGraph = CausalGraph(nodes: seq<CausalNode>)

  function Ids(nodes: seq<CausalNode>): (ids: seq<string>)
    ensures |ids| == |nodes|
    ensures forall i :: 0 <= i < |nodes| ==> ids[i] == nodes[i].id
  {
    seq(|nodes|, i requires 0 <= i < |nodes| => nodes[i].id)
  }

  /** Index of the first node of that name, or the length. */
  function IndexOfNode(nodes: seq<CausalNode>, id: string): (i: nat)
    ensures i <= |nodes|
    ensures i < |nodes| ==> nodes[i].id == id
    ensures forall k :: 0 <= k < i ==> nodes[k].id != id
  {
    if nodes == [] || nodes[0].id == id then 0 else 1 + IndexOfNode(nodes[1..], id)
  }

  ghost predicate UniqueIds(nodes: seq<CausalNode>) {
    forall i, j :: 0 <= i < j < |nodes| ==> nodes[i].id != nodes[j].id
  }

  lemma OneNodePerName(nodes: seq<CausalNode>, k: CausalNode, m: CausalNode)
    requires UniqueIds(nodes) && k in nodes && m in nodes && k.id == m.id
    ensures k == m
  {
    var i :| 0 <= i < |nodes| && nodes[i] == k;
    var j :| 0 <= j < |nodes| && nodes[j] == m;
  }

  function Abs(x: real): real {
    if x < 0.0 then -x else x
  }

  ghost predicate NonNegative(nodes: seq<CausalNode>) {
    forall n :: n in nodes ==> n.weight >= 0.0
  }

  /** What the program takes from outside: the squashing function, the stream of random
      draws (a function of the seed, hence of the player IDs), `strconv.ParseFloat`
      with 0 for a failed parse, and the content hash in a hydrated node's ID. */
  datatype Env = Env(
    sigma: real -> real,
    draw: (seq<string>, nat, nat) -> nat,
    parse: string -> real,
    tag: (nat, string) -> string)

  /** The logistic function, as far as any result here depends on it. */
  ghost predicate Squashing(sigma: real -> real) {
    && (forall x, y :: x < y ==> sigma(x) < sigma(y))
    && (forall x :: 0.0 < sigma(x) < 1.0)
    && sigma(0.0) == 0.5
  }

  lemma SquashingMonotone(sigma: real -> real, x: real, y: real)
    requires Squashing(sigma)
    ensures x <= y <==> sigma(x) <= sigma(y)
  {
    if y < x {
      assert sigma(y) < sigma(x);
    } else if x < y {
      assert sigma(x) < sigma(y);
    }
  }

  /** One such function, so that nothing said of them is said of none. */
  function Hyperbola(x: real): real {
    if x >= 0.0 then 1.0 - 0.5 / (1.0 + x) else 0.5 / (1.0 - x)
  }

  lemma HalfOver(a: real, b: real)
    requires 0.0 < a < b
    ensures 0.0 < 0.5 / b < 0.5 / a
  {
    Ratios.ShareOver(0.5, b, 0.5 / a);
    assert 0.5 / a * a == 0.5;
    assert 0.5 / a * (b - a) > 0.0;
  }

  lemma SquashingExists()
    ensures Squashing(Hyperbola) && Hyperbola(90.0) > 0.9
  {
    forall x, y | x < y ensures Hyperbola(x) < Hyperbola(y) {
      if 0.0 <= x {
        HalfOver(1.0 + x, 1.0 + y);
      } else if y < 0.0 {
        HalfOver(1.0 - y, 1.0 - x);
      } else {
        HyperbolaSides(x);
        HyperbolaSides(y);
      }
    }
    forall x ensures 0.0 < Hyperbola(x) < 1.0 {
      HyperbolaSides(x);
    }
  }

  lemma HyperbolaSides(x: real)
    ensures x < 0.0 ==> 0.0 < Hyperbola(x) < 0.5
    ensures x >= 0.0 ==> 0.5 <= Hyperbola(x) < 1.0
  {
    if x < 0.0 {
      HalfOver(1.0, 1.0 - x);
    } else if x > 0.0 {
      HalfOver(1.0, 1.0 + x);
    }
  }
}
