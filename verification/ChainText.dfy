/** The causal chain as text and back (causal_graph.go, FlatChain and HydrateLegacyCausalChain). */
module ChainText {
  import opened Text
  import opened Sorting
  import Ratios
  import opened Causal

  // ---- printing ----

  /** Position of a role's bucket; a role the table does not list reads as 0. */
  function Rank(r: Role): nat {
    match r
    case Outcome => 0
    case Intervention => 1
    case Evidence => 2
    case Confounder => 3
    case Unknown => 4
    case Other(_) => 0
  }

  predicate ChainLE(a: CausalNode, b: CausalNode) {
    Rank(a.role) < Rank(b.role)
    || (Rank(a.role) == Rank(b.role) && (a.weight > b.weight || (a.weight == b.weight && StringLE(a.id, b.id))))
  }

  lemma ChainOrder()
    ensures TotalPreorder(ChainLE)
  {
    hide Rank;
    StringOrder();
  }

  function Label(n: CausalNode): string {
    var t := Trim(n.summary);
    if t == "" then n.id else t
  }

  function Render(n: CausalNode): string {
    if n.role == NO_ROLE || n.role == Unknown then Label(n) else RoleName(n.role) + ": " + Label(n)
  }

  /** FlatChain as a function of the nodes. */
  function Flat(nodes: seq<CausalNode>): seq<string> {
    Map(Render, Sort(nodes, ChainLE))
  }

  method FlatChain(graph: CausalGraph) returns (out: seq<string>)
    ensures out == Flat(graph.nodes)
  {
    var indexed := Sort(graph.nodes, ChainLE);
    out := [];
    for i := 0 to |indexed|
      invariant |out| == i && forall k :: 0 <= k < i ==> out[k] == Render(indexed[k])
    {
      var text := Trim(indexed[i].summary);
      if text == "" {
        text := indexed[i].id;
      }
      if indexed[i].role != NO_ROLE && indexed[i].role != Unknown {
        text := RoleName(indexed[i].role) + ": " + text;
      }
      out := out + [text];
    }
  }

  /** The one role is printed before the other: outcome, intervention, evidence, confounder,
      unknown, in this order. A role the program does not know is printed among the outcomes. */
  predicate Precedes(a: Role, b: Role) {
    match a
    case Outcome => b == Intervention || b == Evidence || b == Confounder || b == Unknown
    case Other(_) => b == Intervention || b == Evidence || b == Confounder || b == Unknown
    case Intervention => b == Evidence || b == Confounder || b == Unknown
    case Evidence => b == Confounder || b == Unknown
    case Confounder => b == Unknown
    case Unknown => false
  }

  predicate Prefix(r: Role, text: string) {
    match r
    case Outcome => text == "outcome: "
    case Intervention => text == "intervention: "
    case Evidence => text == "evidence: "
    case Confounder => text == "confounder: "
    case Unknown => text == ""
    case Other(name) => text == if name == "" then "" else name + ": "
  }

  /** A line for a node: its role, unless it has none or an unknown one, and its trimmed
      summary, or its name where that is blank. */
  ghost predicate Prints(n: CausalNode, line: string) {
    exists prefix :: Prefix(n.role, prefix) && line == prefix + if Trim(n.summary) != "" then Trim(n.summary) else n.id
  }

  lemma RenderPrints(n: CausalNode)
    ensures Prints(n, Render(n))
  {
    hide Trim;
    var prefix := if n.role == NO_ROLE || n.role == Unknown then "" else RoleName(n.role) + ": ";
    assert Prefix(n.role, prefix) by {
      assert "outcome: " == "outcome" + ": " && "intervention: " == "intervention" + ": ";
      assert "evidence: " == "evidence" + ": " && "confounder: " == "confounder" + ": ";
    }
    assert Render(n) == prefix + Label(n);
  }

  lemma BeforeInChain(a: CausalNode, b: CausalNode)
    requires ChainLE(a, b)
    ensures !Precedes(b.role, a.role)
    ensures a.role == b.role ==> a.weight > b.weight || (a.weight == b.weight && StringLE(a.id, b.id))
  {
    hide StringLE;
  }

  /** What the chain looks like: one line for each node, the nodes so arranged that no role
      stands after one it precedes, and that within a role weights never rise and equal weights
      go by name. */
  lemma FlatMeaning(nodes: seq<CausalNode>) returns (s: seq<CausalNode>)
    ensures multiset(s) == multiset(nodes) && |Flat(nodes)| == |s|
    ensures forall i :: 0 <= i < |s| ==> Prints(s[i], Flat(nodes)[i])
    ensures forall i, j :: 0 <= i < j < |s| ==> !Precedes(s[j].role, s[i].role)
    ensures forall i, j :: 0 <= i < j < |s| && s[i].role == s[j].role ==>
      s[i].weight > s[j].weight || (s[i].weight == s[j].weight && StringLE(s[i].id, s[j].id))
  {
    hide ChainLE, Render, Prints, StringLE, Sort;
    s := Sort(nodes, ChainLE);
    SortPermutes(nodes, ChainLE);
    ChainOrder();
    SortSorts(nodes, ChainLE);
    forall i | 0 <= i < |s| ensures Prints(s[i], Flat(nodes)[i]) {
      RenderPrints(s[i]);
    }
    forall i, j | 0 <= i < j < |s|
      ensures !Precedes(s[j].role, s[i].role)
      ensures s[i].role == s[j].role ==> s[i].weight > s[j].weight || (s[i].weight == s[j].weight && StringLE(s[i].id, s[j].id))
    {
      BeforeInChain(s[i], s[j]);
    }
  }

  // ---- parsing ----

  /** The four roles a prefix can name. */
  function PrefixRole(name: string): (r: Option<Role>)
    ensures r.Some? ==> r.value in {Evidence, Confounder, Intervention, Outcome}
  {
    if name == "evidence" then Some(Evidence)
    else if name == "confounder" then Some(Confounder)
    else if name == "intervention" then Some(Intervention)
    else if name == "outcome" then Some(Outcome)
    else None
  }

  /** The role an entry names before its first colon, if any. */
  function EntryRole(raw: string): Role {
    var s := Trim(raw);
    var colon := Find(s, ':');
    if 0 < colon < |s| then
      match PrefixRole(ToLower(Trim(s[..colon])))
      case Some(r) => r
      case None => Unknown
    else Unknown
  }

  function EntrySummary(raw: string): string {
    var s := Trim(raw);
    if EntryRole(raw) == Unknown then s else Trim(s[Find(s, ':') + 1..])
  }

  function HydratedNode(env: Env, chain: seq<string>, idx: nat): CausalNode
    requires idx < |chain|
  {
    CausalNode("lcc:" + env.tag(idx, chain[idx]), EntryRole(chain[idx]), EntrySummary(chain[idx]),
               [], [], FallingWeight(idx, |chain|), map[])
  }

  /** Earlier entries weigh more. */
  function FallingWeight(idx: nat, total: nat): real
    requires idx < total
  {
    (total - idx) as real / total as real
  }

  function Hydrated(env: Env, chain: seq<string>): (nodes: seq<CausalNode>)
    ensures |nodes| == |chain|
    ensures forall i :: 0 <= i < |chain| ==> nodes[i] == HydratedNode(env, chain, i)
  {
    seq(|chain|, i requires 0 <= i < |chain| => HydratedNode(env, chain, i))
  }

  method ParseEntry(raw: string) returns (role: Role, summary: string)
    ensures role == EntryRole(raw) && summary == EntrySummary(raw)
  {
    hide PrefixRole, Trim, Find, ToLower;
    summary := Trim(raw);
    role := Unknown;
    var colon := Find(summary, ':');
    if 0 < colon < |summary| {
      var candidate := PrefixRole(ToLower(Trim(summary[..colon])));
      if candidate.Some? {
        role := candidate.value;
        summary := Trim(summary[colon + 1..]);
      }
    }
  }

  method HydrateLegacyCausalChain(env: Env, chain: seq<string>) returns (graph: Option<CausalGraph>)
    ensures graph == if chain == [] then None else Some(CausalGraph(Hydrated(env, chain)))
  {
    hide EntryRole, EntrySummary;
    if |chain| == 0 {
      return None;
    }
    var nodes: seq<CausalNode> := [];
    for idx := 0 to |chain|
      invariant |nodes| == idx && forall i :: 0 <= i < idx ==> nodes[i] == HydratedNode(env, chain, i)
    {
      var role, summary := ParseEntry(chain[idx]);
      var weight := FallingWeight(idx, |chain|);
      nodes := nodes + [CausalNode("lcc:" + env.tag(idx, chain[idx]), role, summary, [], [], weight, map[])];
    }
    graph := Some(CausalGraph(nodes));
    assert nodes == Hydrated(env, chain);
  }

  /** The role a name before a colon stands for, in whatever case and spacing it is written. */
  predicate Names(pre: string, r: Role) {
    match r
    case Evidence => ToLower(Trim(pre)) == "evidence"
    case Confounder => ToLower(Trim(pre)) == "confounder"
    case Intervention => ToLower(Trim(pre)) == "intervention"
    case Outcome => ToLower(Trim(pre)) == "outcome"
    case _ => false
  }

  /** An entry with a role's name before its first colon has that role, and for a summary what
      comes after the colon; every other entry has no known role and is all summary. */
  lemma ParseMeaning(raw: string, pre: string, rest: string)
    requires Trim(raw) == pre + [':'] + rest && ':' !in pre
    ensures forall r: Role :: Names(pre, r) ==> EntryRole(raw) == r && EntrySummary(raw) == Trim(rest)
    ensures (forall r: Role :: !Names(pre, r)) ==> EntryRole(raw) == Unknown && EntrySummary(raw) == Trim(raw)
  {
    hide Find, Trim, ToLower, Names, PrefixRole;
    ColonPieces(pre, rest);
    BlankNamesNothing();
    NamedRole(pre);
  }

  lemma NamedRole(pre: string)
    ensures forall r: Role :: Names(pre, r) <==> PrefixRole(ToLower(Trim(pre))) == Some(r)
  {
    hide Trim, ToLower;
    DifferentNames();
  }

  lemma BlankNamesNothing()
    ensures forall r: Role :: !Names("", r)
  {
  }

  lemma DifferentNames()
    ensures "evidence" != "confounder" && "evidence" != "intervention" && "evidence" != "outcome"
    ensures "confounder" != "intervention" && "confounder" != "outcome" && "intervention" != "outcome"
  {
    assert "confounder"[0] != "intervention"[0];
  }

  lemma ParsePlain(raw: string)
    requires ':' !in Trim(raw)
    ensures EntryRole(raw) == Unknown && EntrySummary(raw) == Trim(raw)
  {
    hide Trim, ToLower;
    var s := Trim(raw);
    assert forall k :: 0 <= k < |s| ==> s[k] in s && s[k] != ':';
  }

  /** Case and spacing of a role's name do not count. */
  lemma LoudEvidence()
    ensures EntryRole(" EvIDence : a: b ") == Evidence && EntrySummary(" EvIDence : a: b ") == "a: b"
  {
    var raw := " EvIDence : a: b ";
    LoudTrims();
    hide Trim, ToLower, EntryRole, EntrySummary, Find;
    ParseMeaning(raw, "EvIDence ", " a: b");
    assert Names("EvIDence ", Evidence);
  }

  lemma LoudTrims()
    ensures Trim(" EvIDence : a: b ") == "EvIDence " + [':'] + " a: b"
    ensures Trim("EvIDence ") == "EvIDence" && ToLower("EvIDence") == "evidence" && Trim(" a: b") == "a: b"
  {
    var raw := " EvIDence : a: b ";
    assert raw[1..] == "EvIDence : a: b ";
    assert TrimLeft(raw) == raw[1..];
    assert raw[1..][..15] == "EvIDence : a: b";
    assert TrimRight(raw[1..]) == "EvIDence : a: b";
    assert "EvIDence "[..8] == "EvIDence";
    assert " a: b"[1..] == "a: b";
  }

  /** A hydrated node's weight falls evenly from 1; it has no parents, references or metadata. */
  lemma HydratedMeaning(env: Env, chain: seq<string>, i: nat)
    requires i < |chain|
    ensures var n := Hydrated(env, chain)[i];
      && n.weight * |chain| as real == (|chain| - i) as real
      && n.id == "lcc:" + env.tag(i, chain[i]) && n.role == EntryRole(chain[i]) && n.summary == EntrySummary(chain[i])
      && n.parents == [] && n.atomRefs == [] && n.meta == map[]
  {
    hide EntryRole, EntrySummary;
    WeightTimes(i, |chain|);
  }

  lemma WeightTimes(i: nat, n: nat)
    requires i < n
    ensures FallingWeight(i, n) * n as real == (n - i) as real
  {
  }

  // ---- printing what was parsed ----

  /** A role's name, a colon, one blank, and a trimmed text. */
  predicate Spelled(raw: string, r: Role) {
    var head := RoleName(r) + ": ";
    head < raw && Trimmed(raw[|head|..])
  }

  /** An entry that names no role, or names one of the four just as the printer does, with no
      white space at either end. */
  predicate Canonical(raw: string) {
    && raw != "" && Trimmed(raw)
    && (EntryRole(raw) == Unknown || Spelled(raw, Evidence) || Spelled(raw, Confounder)
        || Spelled(raw, Intervention) || Spelled(raw, Outcome))
  }

  /** An entry that is written as it was parsed. */
  predicate PrintsBack(raw: string) {
    && EntrySummary(raw) != ""
    && raw == if EntryRole(raw) == Unknown then EntrySummary(raw)
              else RoleName(EntryRole(raw)) + ": " + EntrySummary(raw)
  }

  lemma TrimIsTrimmed(s: string)
    ensures Trim(Trim(s)) == Trim(s)
  {
    TrimOfTrimmed(Trim(s));
  }

  lemma TrimAroundColon(name: string, rest: string)
    requires name != "" && Trimmed(name)
    ensures Trim(name + [':'] + rest) == name + [':'] + TrimRight(rest)
  {
    hide TrimRight;
    var raw := name + [':'] + rest;
    assert raw[0] == name[0];
    assert TrimLeft(raw) == raw;
    TrimRightOfConcat(name + [':'], rest);
  }

  /** How an entry with a colon after a trimmed, colon-free name splits. */
  lemma SplitAtColon(name: string, rest: string)
    requires name != "" && ':' !in name && Trimmed(name)
    ensures EntryRole(name + [':'] + rest) == match PrefixRole(ToLower(name)) case Some(r) => r case None => Unknown
    ensures PrefixRole(ToLower(name)).Some? ==> EntrySummary(name + [':'] + rest) == Trim(TrimRight(rest))
  {
    hide PrefixRole, ToLower, TrimRight, Trim, Find, Trimmed;
    TrimOfTrimmed(name);
    TrimAroundColon(name, rest);
    ColonPieces(name, TrimRight(rest));
  }

  lemma ColonPieces(name: string, tail: string)
    requires ':' !in name
    ensures var s := name + [':'] + tail;
      Find(s, ':') == |name| && s[..|name|] == name && s[|name| + 1..] == tail
  {
    FindUnique(name, ':', tail);
  }

  lemma RoleNameShape(r: Role)
    requires r in {Evidence, Confounder, Intervention, Outcome}
    ensures PrefixRole(RoleName(r)) == Some(r)
    ensures ':' !in RoleName(r) && Trimmed(RoleName(r)) && RoleName(r) != ""
    ensures ToLower(RoleName(r)) == RoleName(r)
  {
  }

  /** A printed prefix parses back to its role, whatever follows. */
  lemma PrefixParses(r: Role, text: string)
    requires r in {Evidence, Confounder, Intervention, Outcome}
    ensures EntryRole(RoleName(r) + ": " + text) == r
    ensures EntrySummary(RoleName(r) + ": " + text) == Trim(TrimRight(" " + text))
  {
    var name := RoleName(r);
    RoleNameShape(r);
    hide RoleName, PrefixRole, EntryRole, EntrySummary, TrimRight;
    assert name + ": " + text == name + [':'] + (" " + text);
    SplitAtColon(name, " " + text);
  }

  lemma TrimOfSpaced(text: string)
    requires text != "" && Trimmed(text)
    ensures Trim(TrimRight(" " + text)) == text
  {
    var s := " " + text;
    assert s[|s| - 1] == text[|text| - 1];
    assert TrimRight(s) == s;
    assert s[1..] == text;
    assert TrimLeft(s) == text;
  }

  lemma PlainReparses(raw: string)
    ensures EntryRole(Trim(raw)) == EntryRole(raw)
    ensures EntrySummary(Trim(raw)) == EntrySummary(raw)
  {
    TrimIsTrimmed(raw);
  }

  lemma IdIsPlain(tag: string)
    ensures EntryRole("lcc:" + tag) == Unknown
  {
    var raw := "lcc:" + tag;
    assert raw == "lcc" + [':'] + tag;
    assert ToLower("lcc") == "lcc";
    hide EntryRole;
    SplitAtColon("lcc", tag);
  }

  lemma EntryRoles(raw: string)
    ensures EntryRole(raw) in {Evidence, Confounder, Intervention, Outcome, Unknown}
  {
  }

  /** A hydrated node prints to text that parses back to its role. */
  lemma HydratedRoleSurvives(env: Env, chain: seq<string>, idx: nat)
    requires idx < |chain|
    ensures EntryRole(Render(HydratedNode(env, chain, idx))) == HydratedNode(env, chain, idx).role
  {
    var raw, n := chain[idx], HydratedNode(env, chain, idx);
    EntryRoles(raw);
    TrimIsTrimmed(raw);
    TrimIsTrimmed(Trim(raw)[if EntryRole(raw) == Unknown then 0 else Find(Trim(raw), ':') + 1..]);
    if n.role == Unknown {
      if n.summary == "" {
        IdIsPlain(env.tag(idx, raw));
      } else {
        PlainReparses(raw);
      }
    } else {
      PrefixParses(n.role, Label(n));
    }
  }

  /** A hydrated node prints to the entry it came from exactly when the entry is canonical. */
  lemma HydratedPrints(env: Env, chain: seq<string>, idx: nat)
    requires idx < |chain|
    ensures Render(HydratedNode(env, chain, idx)) == chain[idx] <==> Canonical(chain[idx])
  {
    CanonicalIsText(chain[idx]);
    hide Canonical;
    var raw, n := chain[idx], HydratedNode(env, chain, idx);
    EntryRoles(raw);
    assert Trim(n.summary) == n.summary by {
      TrimIsTrimmed(raw);
      TrimIsTrimmed(Trim(raw)[if EntryRole(raw) == Unknown then 0 else Find(Trim(raw), ':') + 1..]);
    }
    if n.summary == "" && Render(n) == raw {
      EmptySummaryPrints(raw, env.tag(idx, raw));
    }
  }

  lemma EmptySummaryPrints(raw: string, tag: string)
    requires EntrySummary(raw) == ""
    ensures raw != if EntryRole(raw) == Unknown then "lcc:" + tag else RoleName(EntryRole(raw)) + ": " + ("lcc:" + tag)
  {
    var r := EntryRole(raw);
    EntryRoles(raw);
    if r == Unknown {
      if raw == "lcc:" + tag {
        TrimRightKeeps(raw, 0);
      }
    } else if raw == RoleName(r) + ": " + ("lcc:" + tag) {
      PrefixSummaryNonEmpty(r, tag);
    }
  }

  lemma PrefixSummaryNonEmpty(r: Role, tag: string)
    requires r in {Evidence, Confounder, Intervention, Outcome}
    ensures EntrySummary(RoleName(r) + ": " + ("lcc:" + tag)) != ""
  {
    PrefixParses(r, "lcc:" + tag);
    hide RoleName, EntrySummary;
    var s := " " + ("lcc:" + tag);
    assert s[1] == 'l';
    TrimRightKeeps(s, 1);
    assert TrimRight(s)[1] == s[1];
    TrimKeeps(TrimRight(s), 1);
  }

  lemma NamedCanonical(r: Role, text: string)
    requires r in {Evidence, Confounder, Intervention, Outcome}
    requires text != "" && Trimmed(text)
    ensures PrintsBack(RoleName(r) + ": " + text) && EntryRole(RoleName(r) + ": " + text) == r
  {
    PrefixParses(r, text);
    TrimOfSpaced(text);
    hide EntryRole, EntrySummary, RoleName, Trim, TrimRight;
  }

  lemma SummaryIsTrimmed(raw: string)
    ensures Trimmed(EntrySummary(raw)) && (EntryRole(raw) == Unknown ==> EntrySummary(raw) == Trim(raw))
  {
    hide EntryRole, Trim, Find;
  }

  lemma SpelledParts(r: Role, text: string)
    requires r in {Evidence, Confounder, Intervention, Outcome}
    ensures var raw := RoleName(r) + ": " + text;
      && (text != "" && Trimmed(text) <==> Spelled(raw, r))
      && (text != "" && Trimmed(text) ==> raw != "" && Trimmed(raw))
  {
    RoleNameShape(r);
    hide RoleName;
    var head, raw := RoleName(r) + ": ", RoleName(r) + ": " + text;
    assert raw[|head|..] == text;
    assert raw[0] == RoleName(r)[0];
    assert text != "" ==> raw[|raw| - 1] == text[|text| - 1];
  }

  lemma SpelledPrintsBack(raw: string, r: Role)
    requires r in {Evidence, Confounder, Intervention, Outcome} && Spelled(raw, r)
    ensures PrintsBack(raw) && EntryRole(raw) == r
  {
    hide RoleName, PrintsBack, EntryRole;
    var head := RoleName(r) + ": ";
    assert raw == head + raw[|head|..];
    NamedCanonical(r, raw[|head|..]);
  }

  /** What such an entry looks like. */
  lemma CanonicalIsText(raw: string)
    ensures PrintsBack(raw) <==> Canonical(raw)
  {
    hide EntryRole, EntrySummary, RoleName, Spelled, Trim;
    EntryRoles(raw);
    SummaryIsTrimmed(raw);
    TrimOfTrimmed(raw);
    if PrintsBack(raw) && EntryRole(raw) != Unknown {
      SpelledParts(EntryRole(raw), EntrySummary(raw));
    }
    if Canonical(raw) && EntryRole(raw) != Unknown {
      var r :| r in {Evidence, Confounder, Intervention, Outcome} && Spelled(raw, r);
      SpelledPrintsBack(raw, r);
    }
  }

  // ---- the round trip ----

  function RankOf(raw: string): nat {
    Rank(EntryRole(raw))
  }

  /** The entries come bucket by bucket. */
  predicate Bucketed(chain: seq<string>) {
    forall i, j :: 0 <= i < j < |chain| ==> RankOf(chain[i]) <= RankOf(chain[j])
  }

  lemma WeightsFall(i: nat, j: nat, n: nat)
    requires i < j < n
    ensures FallingWeight(j, n) < FallingWeight(i, n)
  {
    var a, b, d := (n - j) as real, (n - i) as real, n as real;
    Ratios.ShareOver(a, d, b / d);
    assert b / d * d == b;
  }

  /** Weights fall along a hydrated chain, so only the buckets decide its order. */
  lemma HydratedOrder(env: Env, chain: seq<string>, i: nat, j: nat)
    requires i < j < |chain|
    ensures ChainLE(HydratedNode(env, chain, i), HydratedNode(env, chain, j))
      <==> RankOf(chain[i]) <= RankOf(chain[j])
  {
    hide Rank, EntryRole, EntrySummary, StringLE, FallingWeight;
    WeightsFall(i, j, |chain|);
  }

  lemma HydratedSorted(env: Env, chain: seq<string>)
    ensures Sorted(Hydrated(env, chain), ChainLE) <==> Bucketed(chain)
  {
    hide ChainLE, RankOf, HydratedNode;
    var h := Hydrated(env, chain);
    forall i, j | 0 <= i < j < |chain|
      ensures ChainLE(h[i], h[j]) <==> RankOf(chain[i]) <= RankOf(chain[j])
    {
      HydratedOrder(env, chain, i, j);
    }
  }

  lemma SortedBuckets(nodes: seq<CausalNode>, i: nat, j: nat)
    requires i < j < |nodes| && Sorted(nodes, ChainLE)
    ensures Rank(nodes[i].role) <= Rank(nodes[j].role)
  {
    assert ChainLE(nodes[i], nodes[j]);
  }

  /** A chain that came back unchanged was in buckets to begin with. */
  lemma UnchangedIsBucketed(env: Env, chain: seq<string>)
    requires Flat(Hydrated(env, chain)) == chain
    ensures Bucketed(chain)
  {
    hide ChainLE, HydratedNode, EntryRole, Render, Rank;
    var h := Hydrated(env, chain);
    var s := Sort(h, ChainLE);
    ChainOrder();
    SortSorts(h, ChainLE);
    forall i, j | 0 <= i < j < |chain| ensures RankOf(chain[i]) <= RankOf(chain[j]) {
      SortedBuckets(s, i, j);
      PrintedRole(env, chain, s[i]);
      PrintedRole(env, chain, s[j]);
      assert chain[i] == Render(s[i]) && chain[j] == Render(s[j]);
    }
  }

  lemma PrintedRole(env: Env, chain: seq<string>, n: CausalNode)
    requires n in Sort(Hydrated(env, chain), ChainLE)
    ensures EntryRole(Render(n)) == n.role
  {
    hide ChainLE, EntryRole, Render, HydratedNode;
    SortKeepsMember(Hydrated(env, chain), ChainLE, n);
    var k :| 0 <= k < |chain| && Hydrated(env, chain)[k] == n;
    HydratedRoleSurvives(env, chain, k);
  }

  /** Text to graph and back is the identity exactly on bucketed chains of canonical entries. */
  lemma ChainRoundTrip(env: Env, chain: seq<string>)
    ensures Flat(Hydrated(env, chain)) == chain
      <==> Bucketed(chain) && forall i :: 0 <= i < |chain| ==> Canonical(chain[i])
  {
    hide ChainLE, HydratedNode, Canonical, Render, RankOf;
    if Flat(Hydrated(env, chain)) == chain {
      UnchangedIsBucketed(env, chain);
    }
    if Bucketed(chain) {
      var h := Hydrated(env, chain);
      HydratedSorted(env, chain);
      SortIsIdentityOnSorted(h, ChainLE);
      forall i | 0 <= i < |chain| ensures Flat(h)[i] == chain[i] <==> Canonical(chain[i]) {
        HydratedPrints(env, chain, i);
      }
    }
  }

  /** A label the printer can write and the parser take back without moving its node. */
  predicate Plain(n: CausalNode) {
    && n.role in {Evidence, Confounder, Intervention, Outcome, Unknown}
    && Label(n) != "" && Trimmed(Label(n))
    && (n.role == Unknown ==> EntryRole(Label(n)) == Unknown)
  }

  lemma PlainPrints(n: CausalNode)
    requires Plain(n)
    ensures Canonical(Render(n)) && EntryRole(Render(n)) == n.role
  {
    hide EntryRole, Label, RoleName, PrintsBack, Spelled;
    CanonicalIsText(Render(n));
    if n.role != Unknown {
      NamedCanonical(n.role, Label(n));
    }
  }

  /** What a node of one of the four roles prints survives exactly when its label is trimmed and
      not empty; of an unknown role, or none, exactly when its label is itself canonical. */
  lemma CanonicalNode(n: CausalNode)
    ensures n.role in {Evidence, Confounder, Intervention, Outcome} ==>
      (Canonical(Render(n)) <==> Label(n) != "" && Trimmed(Label(n)))
    ensures n.role == Unknown || n.role == NO_ROLE ==> (Canonical(Render(n)) <==> Canonical(Label(n)))
  {
    hide EntryRole, Label, RoleName, Spelled, EntrySummary, Trim, Canonical;
    if n.role in {Evidence, Confounder, Intervention, Outcome} {
      CanonicalIsText(Render(n));
      if Label(n) != "" && Trimmed(Label(n)) {
        NamedCanonical(n.role, Label(n));
      } else {
        BadLabelShows(n.role, Label(n));
      }
    }
  }

  lemma BadLabelShows(r: Role, text: string)
    requires r in {Evidence, Confounder, Intervention, Outcome} && !(text != "" && Trimmed(text))
    ensures !PrintsBack(RoleName(r) + ": " + text)
  {
    hide RoleName, EntryRole, EntrySummary, Trim, TrimRight;
    PrefixParses(r, text);
    var raw := RoleName(r) + ": " + text;
    SummaryIsTrimmed(raw);
    var head, summary := RoleName(r) + ": ", EntrySummary(raw);
    assert (head + text)[|head|..] == text && (head + summary)[|head|..] == summary;
  }

  /** The buckets of the printed entries follow the order of the nodes. */
  predicate InStep(nodes: seq<CausalNode>) {
    var s := Sort(nodes, ChainLE);
    forall i, j :: 0 <= i < j < |s| ==> RankOf(Render(s[i])) <= RankOf(Render(s[j]))
  }

  /** Graph to text, to graph, to text: the text is kept exactly when every node prints a
      canonical entry and none is read back into an earlier bucket than a node before it. */
  lemma GraphRoundTrip(env: Env, nodes: seq<CausalNode>)
    ensures Flat(Hydrated(env, Flat(nodes))) == Flat(nodes)
      <==> InStep(nodes) && forall n :: n in nodes ==> Canonical(Render(n))
  {
    hide ChainLE, Canonical, Render, RankOf, Hydrated;
    var s := Sort(nodes, ChainLE);
    var chain := Flat(nodes);
    ChainRoundTrip(env, chain);
    assert forall i :: 0 <= i < |chain| ==> chain[i] == Render(s[i]);
    forall n ensures n in s <==> n in nodes {
      SortKeepsMember(nodes, ChainLE, n);
    }
    assert forall i :: 0 <= i < |chain| ==> s[i] in s;
  }

  ghost predicate InStepPairwise(nodes: seq<CausalNode>) {
    forall n, m :: n in nodes && m in nodes && ChainLE(n, m) ==> RankOf(Render(n)) <= RankOf(Render(m))
  }

  /** With unique names the order can be asked of any two nodes. */
  lemma InStepByPairs(nodes: seq<CausalNode>)
    requires UniqueIds(nodes)
    ensures InStep(nodes) <==> InStepPairwise(nodes)
  {
    hide InStep, InStepPairwise;
    if InStep(nodes) {
      ListOrderToPairs(nodes);
    }
    if InStepPairwise(nodes) {
      PairsToListOrder(nodes);
    }
  }

  lemma ListOrderToPairs(nodes: seq<CausalNode>)
    requires UniqueIds(nodes) && InStep(nodes)
    ensures InStepPairwise(nodes)
  {
    hide ChainLE, Render, RankOf, UniqueIds;
    var s := Sort(nodes, ChainLE);
    ChainOrder();
    SortSorts(nodes, ChainLE);
    forall n, m | n in nodes && m in nodes && ChainLE(n, m) ensures RankOf(Render(n)) <= RankOf(Render(m)) {
      SortKeepsMember(nodes, ChainLE, n);
      SortKeepsMember(nodes, ChainLE, m);
      var i :| 0 <= i < |s| && s[i] == n;
      var j :| 0 <= j < |s| && s[j] == m;
      if j < i {
        TiedNames(m, n);
        OneNodePerName(nodes, n, m);
      }
    }
  }

  lemma PairsToListOrder(nodes: seq<CausalNode>)
    requires InStepPairwise(nodes)
    ensures InStep(nodes)
  {
    hide ChainLE, Render, RankOf;
    var s := Sort(nodes, ChainLE);
    ChainOrder();
    SortSorts(nodes, ChainLE);
    forall i, j | 0 <= i < j < |s| ensures RankOf(Render(s[i])) <= RankOf(Render(s[j])) {
      SortKeepsMember(nodes, ChainLE, s[i]);
      SortKeepsMember(nodes, ChainLE, s[j]);
    }
  }

  lemma TiedNames(n: CausalNode, m: CausalNode)
    requires ChainLE(n, m) && ChainLE(m, n)
    ensures n.id == m.id
  {
    StringOrder();
    hide StringLE, Rank;
  }

  /** So it is kept of every plainly labelled graph. */
  lemma PlainGraphRoundTrip(env: Env, nodes: seq<CausalNode>)
    requires forall n :: n in nodes ==> Plain(n)
    ensures Flat(Hydrated(env, Flat(nodes))) == Flat(nodes)
  {
    hide ChainLE, Plain, Canonical, EntryRole, Render, Rank, Hydrated, Flat;
    var s := Sort(nodes, ChainLE);
    ChainOrder();
    SortSorts(nodes, ChainLE);
    forall n | n in nodes ensures Canonical(Render(n)) && EntryRole(Render(n)) == n.role {
      PlainPrints(n);
    }
    forall i, j | 0 <= i < j < |s| ensures RankOf(Render(s[i])) <= RankOf(Render(s[j])) {
      SortedBuckets(s, i, j);
      SortKeepsMember(nodes, ChainLE, s[i]);
      SortKeepsMember(nodes, ChainLE, s[j]);
    }
    GraphRoundTrip(env, nodes);
  }

  lemma PrintsSummary(n: CausalNode)
    requires n.summary != "" && Trimmed(n.summary) && n.role != NO_ROLE
    ensures Render(n) == if n.role == Unknown then n.summary else RoleName(n.role) + ": " + n.summary
  {
    TrimOfTrimmed(n.summary);
    hide RoleName, Trim;
  }

  lemma RereadRoles()
    ensures EntryRole("evidence: e") == Evidence && EntryRole(RoleName(Confounder) + ": " + "c") == Confounder
  {
    hide EntryRole, EntrySummary, Trim, TrimRight, RoleName;
    EvidenceSpelled();
    PrefixParses(Evidence, "e");
    PrefixParses(Confounder, "c");
  }

  lemma EvidenceSpelled()
    ensures "evidence: e" == RoleName(Evidence) + ": " + "e"
  {
  }

  /** A node of unknown role whose label names a role overtakes the one before it. */
  lemma GraphTextMoves(env: Env, c: CausalNode, u: CausalNode)
    requires c.role == Confounder && c.summary == "c" && u.role == Unknown && u.summary == "evidence: e"
    ensures Flat(Hydrated(env, Flat([c, u]))) != Flat([c, u])
  {
    hide EntryRole, Sort, Hydrated, Flat, Render, RoleName;
    var nodes := [c, u];
    RereadRoles();
    PrintsSummary(c);
    PrintsSummary(u);
    assert ChainLE(c, u);
    SortIsIdentityOnSorted(nodes, ChainLE);
    assert RankOf(Render(nodes[0])) == 3 && RankOf(Render(nodes[1])) == 2;
    GraphRoundTrip(env, nodes);
  }

  // ---- keeping a verdict's two views together (types.go, SyncCausalChain) ----

  datatype Views = Views(chain: seq<string>, graph: Option<CausalGraph>)

  function Synced(env: Env, v: Views): Views {
    if v.graph.Some? && v.graph.value.nodes != [] then v.(chain := Flat(v.graph.value.nodes))
    else if v.chain != [] && v.graph == None then v.(graph := Some(CausalGraph(Hydrated(env, v.chain))))
    else v
  }

  /** A graph is never changed, and with nodes it rewrites the chain; a chain is read only where
      there is no graph at all. */
  lemma SyncMeaning(env: Env, v: Views)
    ensures var t := Synced(env, v);
      && (v.graph.Some? ==> t.graph == v.graph)
      && (v.graph.Some? && v.graph.value.nodes != [] ==> t.chain == Flat(v.graph.value.nodes))
      && (v.graph.Some? && v.graph.value.nodes == [] ==> t == v)
      && (v.graph == None ==> t.chain == v.chain && (t.graph == None <==> v.chain == []))
      && (v.graph == None && v.chain != [] ==> t.graph == Some(CausalGraph(Hydrated(env, v.chain))))
  {
    hide Flat, Hydrated;
  }

  /** Syncing twice is syncing once exactly when there was a graph, or no chain, or a chain
      that survives the round trip. The program's comment claims it always. */
  lemma SyncIdempotent(env: Env, v: Views)
    ensures Synced(env, Synced(env, v)) == Synced(env, v)
      <==> v.graph.Some? || v.chain == [] || (Bucketed(v.chain) && forall i :: 0 <= i < |v.chain| ==> Canonical(v.chain[i]))
  {
    hide Bucketed, Canonical, Flat;
    if v.graph == None && v.chain != [] {
      ChainRoundTrip(env, v.chain);
    }
  }

  lemma TwoEntries()
    ensures EntryRole("evidence: b") == Evidence && EntryRole("outcome: a") == Outcome
  {
    hide EntryRole, EntrySummary;
    PrefixParses(Evidence, "b");
    PrefixParses(Outcome, "a");
    assert "evidence: b" == RoleName(Evidence) + ": " + "b";
    assert "outcome: a" == RoleName(Outcome) + ": " + "a";
  }

  /** Two entries the second sync turns around. */
  lemma SyncTwiceMoves(env: Env)
    ensures var v := Views(["evidence: b", "outcome: a"], None);
      Synced(env, Synced(env, v)) != Synced(env, v)
  {
    hide EntryRole, Canonical, Synced;
    TwoEntries();
    var chain := ["evidence: b", "outcome: a"];
    assert RankOf(chain[0]) == 2 && RankOf(chain[1]) == 0;
    SyncIdempotent(env, Views(chain, None));
  }
}
