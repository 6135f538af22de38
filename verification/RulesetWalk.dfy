/** The bounded walk over edge rulesets: a depth-first search that marks (scope, id, version) keys,
    refuses to re-enter a (scope, id) it is still inside, reads at most 32 rulesets, and keeps one
    monotone completeness flag. */
module RulesetWalk {
  import opened Options

  const MAX_REQUESTS: nat := 96
  const MAX_RULESETS: nat := 32
  const LIMIT: nat := 16 * 1024 * 1024
  const MAX_TOTAL_BYTES: nat := 64 * 1024 * 1024

  datatype Node = At(scope: string, id: string)

  datatype Key = Key(scope: string, id: string, version: string)
  {
    function Node(): Node { At(scope, id) }
  }

  /** One rule as parsed: not a record with an action, not an execution, or an execution whose target
      fields may have the wrong type. */
  datatype Rule = Malformed | Other | Execute(id: Option<string>, version: Option<string>)

  datatype Document = Document(id: string, version: string, rules: seq<Rule>)

  /** What one request brings: its size, and a document when it was a success of the right shape. */
  datatype Reply = Reply(size: nat, document: Option<Document>)

  /** The environment: the answer to each request, by its position in the run, and whether the
      deadline has passed by then. */
  datatype World = World(serve: (nat, Key) -> Reply, late: nat -> bool, catalog: map<string, string>, account: string)

  /** `visited`, `nodes`, `requests`, `bytes` and `complete` are the walk's own state; `read` and
      `finished` record which document each key answered with and the order reads were completed. */
  datatype State = State(visited: set<Key>, nodes: nat, requests: nat, bytes: nat, complete: bool,
                         read: map<Key, Document>, finished: seq<Key>)

  // ---------- Shapes ----------

  predicate Digits(s: string) { 1 <= |s| <= 12 && forall i :: 0 <= i < |s| ==> '0' <= s[i] <= '9' }

  predicate RulesetId(s: string) {
    |s| == 32 && forall i :: 0 <= i < |s| ==> '0' <= s[i] <= '9' || 'a' <= s[i] <= 'f'
  }

  predicate WellFormed(rule: Rule) {
    match rule
    case Malformed => false
    case Other => true
    case Execute(id, version) =>
      id.Some? && RulesetId(id.value) && version.Some?
      && (version.value == "" || version.value == "latest" || Digits(version.value))
  }

  predicate Answers(key: Key, d: Document) {
    d.id == key.id && Digits(d.version) && (key.version != "" ==> d.version == key.version)
  }

  function Target(w: World, rule: Rule): Key
    requires rule.Execute? && WellFormed(rule)
  {
    Key(if rule.id.value in w.catalog then w.catalog[rule.id.value] else "/accounts/" + w.account,
        rule.id.value, if rule.version.value == "latest" then "" else rule.version.value)
  }

  /** The keys a document executes. */
  function Targets(w: World, rules: seq<Rule>): set<Key> {
    set i: nat | i < |rules| && rules[i].Execute? && WellFormed(rules[i]) :: Target(w, rules[i])
  }

  // ---------- The walk as a function ----------

  /** The bounded request: refused past any budget, counted, and dropped when too large. */
  function Capture(w: World, s: State, key: Key): (State, Option<Document>) {
    if s.requests >= MAX_REQUESTS || s.bytes >= MAX_TOTAL_BYTES || w.late(s.requests) then (s, None)
    else
      var reply := w.serve(s.requests, key);
      var after := s.(requests := s.requests + 1, bytes := s.bytes + reply.size);
      if reply.size > LIMIT || after.bytes > MAX_TOTAL_BYTES then (after, None) else (after, reply.document)
  }

  function Room(s: State): nat { if s.nodes <= MAX_RULESETS then MAX_RULESETS - s.nodes else 0 }

  function Enter(s: State, key: Key): State {
    s.(visited := s.visited + {key}, nodes := s.nodes + 1)
  }

  function Read(w: World, s: State, key: Key, ancestors: set<Node>): (r: State)
    ensures r.nodes >= s.nodes
    decreases Room(s), 0
  {
    if key.Node() in ancestors then s.(complete := false)
    else if key in s.visited then s
    else if s.nodes >= MAX_RULESETS then s.(visited := s.visited + {key}, complete := false)
    else
      var (captured, value) := Capture(w, Enter(s, key), key);
      if value.None? || !Answers(key, value.value) then captured.(complete := false)
      else
        var inner := captured.(read := captured.read[key := value.value]);
        var followed := Follow(w, inner, value.value.rules, ancestors + {key.Node()});
        followed.(finished := followed.finished + [key])
  }

  function Follow(w: World, s: State, rules: seq<Rule>, ancestors: set<Node>): (r: State)
    ensures r.nodes >= s.nodes
    decreases Room(s), |rules| + 1
  {
    if rules == [] then s
    else Follow(w, FollowOne(w, s, rules[0], ancestors), rules[1..], ancestors)
  }

  function FollowOne(w: World, s: State, rule: Rule, ancestors: set<Node>): (r: State)
    ensures r.nodes >= s.nodes
    decreases Room(s), 1
  {
    if !WellFormed(rule) then s.(complete := false)
    else if rule.Other? then s
    else Read(w, s, Target(w, rule), ancestors)
  }

  function Walk(w: World, s: State, roots: seq<Key>): State
    decreases |roots|
  {
    if roots == [] then s else Walk(w, Read(w, s, roots[0], {}), roots[1..])
  }

  function Start(requests: nat, bytes: nat, complete: bool): State {
    State({}, 0, requests, bytes, complete, map[], [])
  }

  // ---------- The collector's state ----------

  class Collector {
    const world: World
    var visited: set<Key>
    var nodes: nat
    var requests: nat
    var bytes: nat
    var complete: bool
    ghost var read: map<Key, Document>
    ghost var finished: seq<Key>

    constructor (world: World, requests: nat, bytes: nat, complete: bool)
      ensures this.world == world && Now() == Start(requests, bytes, complete)
    {
      this.world := world;
      visited, nodes, this.requests, this.bytes, this.complete := {}, 0, requests, bytes, complete;
      read, finished := map[], [];
    }

    ghost function Now(): State
      reads this
    {
      State(visited, nodes, requests, bytes, complete, read, finished)
    }

    method Request(key: Key) returns (value: Option<Document>)
      modifies this
      ensures (Now(), value) == Capture(world, old(Now()), key)
      ensures nodes == old(nodes)
    {
      if requests >= MAX_REQUESTS || bytes >= MAX_TOTAL_BYTES || world.late(requests) { return None; }
      var reply := world.serve(requests, key);
      requests := requests + 1;
      bytes := bytes + reply.size;
      if reply.size > LIMIT || bytes > MAX_TOTAL_BYTES { return None; }
      return reply.document;
    }

    method RulesetRead(key: Key, ancestors: set<Node>)
      modifies this
      ensures Now() == Read(world, old(Now()), key, ancestors)
      decreases Room(Now()), 0
    {
      hide Follow, Capture, Answers;
      if key.Node() in ancestors { complete := false; return; }
      if key in visited { return; }
      visited := visited + {key};
      if nodes >= MAX_RULESETS { complete := false; return; }
      nodes := nodes + 1;
      var value := Request(key);
      if value.None? || !Answers(key, value.value) { complete := false; return; }
      read := read[key := value.value];
      FollowRules(value.value.rules, ancestors + {key.Node()});
      finished := finished + [key];
    }

    /** Every rule of one document, with the document's own (scope, id) among the ancestors. */
    method FollowRules(rules: seq<Rule>, inside: set<Node>)
      modifies this
      ensures Now() == Follow(world, old(Now()), rules, inside)
      decreases Room(Now()), |rules| + 1
    {
      hide Read;
      ghost var inner := Now();
      var i := 0;
      while i < |rules|
        invariant i <= |rules| && nodes >= inner.nodes
        invariant Follow(world, inner, rules, inside) == Follow(world, Now(), rules[i..], inside)
      {
        ghost var before := Now();
        var rule := rules[i];
        if !WellFormed(rule) {
          complete := false;
        } else if rule.Execute? {
          RulesetRead(Target(world, rule), inside);
        }
        assert Now() == FollowOne(world, before, rule, inside);
        assert rules[i..][1..] == rules[i + 1..];
        i := i + 1;
      }
    }

    /** The whole walk: every configured entry point in turn. */
    method Collect(roots: seq<Key>)
      modifies this
      ensures Now() == Walk(world, old(Now()), roots)
    {
      var i := 0;
      while i < |roots|
        invariant i <= |roots|
        invariant Walk(world, old(Now()), roots) == Walk(world, Now(), roots[i..])
      {
        RulesetRead(roots[i], {});
        assert roots[i..][1..] == roots[i + 1..];
        i := i + 1;
      }
    }
  }

  // ---------- A complete walk is a closed, acyclic, bounded graph ----------

  /** Every finished key executes only keys finished before it. */
  ghost predicate Ordered(w: World, s: State) {
    forall i :: 0 <= i < |s.finished| ==>
      s.finished[i] in s.read && forall k :: k in Targets(w, s.read[s.finished[i]].rules) ==> k in s.finished[..i]
  }

  /** Each recorded document was served to some request for its key, answers it, and is well formed. */
  ghost predicate Truthful(w: World, s: State) {
    forall k :: k in s.read ==>
      && Answers(k, s.read[k]) && (s.complete ==> k in s.visited)
      && exists n: nat :: n < s.requests && w.serve(n, k).document == Some(s.read[k])
  }

  /** While the flag is up: marked keys are those finished and those still open, all are counted, and
      finished keys are in execution order. */
  ghost predicate Sound(w: World, s: State, path: set<Key>) {
    && s.nodes <= MAX_RULESETS && s.read.Keys <= s.visited
    && Truthful(w, s)
    && (s.complete ==>
          && (forall k :: k in s.visited <==> k in s.finished || k in path)
          && |s.visited| == s.nodes && Ordered(w, s)
          && forall k :: k in s.finished ==> forall r :: r in s.read[k].rules ==> WellFormed(r))
  }

  /** What any part of the walk keeps: marks, documents and finished keys stay; the flag never rises. */
  ghost predicate Extends(s: State, r: State) {
    && s.visited <= r.visited && s.nodes <= r.nodes && s.requests <= r.requests
    && s.finished <= r.finished && (r.complete ==> s.complete)
    && forall k :: k in s.read ==> k in r.read && r.read[k] == s.read[k]
  }

  lemma {:induction false} ReadSound(w: World, s: State, key: Key, path: set<Key>, ancestors: set<Node>)
    requires Sound(w, s, path) && (forall k :: k in path ==> k.Node() in ancestors)
    ensures var r := Read(w, s, key, ancestors);
            Sound(w, r, path) && Extends(s, r) && (r.complete ==> key in r.finished)
    decreases Room(s), 0
  {
    hide Sound, Capture;
    var (captured, value) := Capture(w, Enter(s, key), key);
    if key.Node() in ancestors || key in s.visited || s.nodes >= MAX_RULESETS || value.None? || !Answers(key, value.value) {
      StopSound(w, s, key, path, ancestors);
    } else {
      var rules, within := value.value.rules, ancestors + {key.Node()};
      OpenSound(w, s, key, path, captured, value.value);
      var inner := captured.(read := captured.read[key := value.value]);
      FollowSound(w, inner, rules, path + {key}, within);
      CloseSound(w, s, Follow(w, inner, rules, within), key, path, rules);
    }
  }

  /** The ways a read ends without a usable document. */
  lemma StopSound(w: World, s: State, key: Key, path: set<Key>, ancestors: set<Node>)
    requires Sound(w, s, path) && (forall k :: k in path ==> k.Node() in ancestors)
    requires key.Node() in ancestors || key in s.visited || s.nodes >= MAX_RULESETS
             || var value := Capture(w, Enter(s, key), key).1; value.None? || !Answers(key, value.value)
    ensures var r := Read(w, s, key, ancestors);
            Sound(w, r, path) && Extends(s, r) && (r.complete ==> key in r.finished)
  {
    hide Sound, Follow;
    if key.Node() !in ancestors && key in s.visited {
      VisitedWasFinished(w, s, key, path);
    } else {
      DropSound(w, s, Read(w, s, key, ancestors), path);
    }
  }

  lemma VisitedWasFinished(w: World, s: State, key: Key, path: set<Key>)
    requires Sound(w, s, path) && key in s.visited && key !in path
    ensures s.complete ==> key in s.finished
  {
  }

  /** Lowering the flag never costs anything. */
  lemma DropSound(w: World, s: State, r: State, path: set<Key>)
    requires Sound(w, s, path) && s.visited <= r.visited && s.nodes <= r.nodes && s.requests <= r.requests
    requires r.nodes == s.nodes || r.nodes <= MAX_RULESETS
    requires r.read == s.read && r.finished == s.finished && !r.complete
    ensures Sound(w, r, path) && Extends(s, r)
  {
    forall k | k in r.read ensures exists n: nat :: n < r.requests && w.serve(n, k).document == Some(r.read[k]) {
      var n: nat :| n < s.requests && w.serve(n, k).document == Some(s.read[k]);
      assert n < r.requests;
    }
  }

  lemma OpenSound(w: World, s: State, key: Key, path: set<Key>, captured: State, d: Document)
    requires Sound(w, s, path) && key !in s.visited && s.nodes < MAX_RULESETS
    requires Capture(w, Enter(s, key), key) == (captured, Some(d)) && Answers(key, d)
    ensures Sound(w, captured.(read := captured.read[key := d]), path + {key})
    ensures Extends(s, captured.(read := captured.read[key := d])) && captured.nodes == s.nodes + 1
  {
    hide Ordered, Truthful, Answers, WellFormed;
    var inner := captured.(read := captured.read[key := d]);
    TruthfulStill(w, s, key, captured, d);
    if inner.complete { OrderedStill(w, s, inner, key); }
  }

  lemma TruthfulStill(w: World, s: State, key: Key, captured: State, d: Document)
    requires Truthful(w, s) && Capture(w, Enter(s, key), key) == (captured, Some(d)) && Answers(key, d)
    ensures Truthful(w, captured.(read := captured.read[key := d]))
  {
    hide Answers;
    var inner := captured.(read := captured.read[key := d]);
    assert w.serve(s.requests, key).document == Some(d);
    forall k | k in inner.read
      ensures exists n: nat :: n < inner.requests && w.serve(n, k).document == Some(inner.read[k])
    {
      if k != key {
        var n: nat :| n < s.requests && w.serve(n, k).document == Some(s.read[k]);
      }
    }
  }

  lemma OrderedStill(w: World, s: State, inner: State, key: Key)
    requires Ordered(w, s) && inner.finished == s.finished && key !in s.finished
    requires forall k :: k in s.read && k != key ==> k in inner.read && inner.read[k] == s.read[k]
    ensures Ordered(w, inner)
  {
  }

  lemma CloseSound(w: World, s: State, followed: State, key: Key, path: set<Key>, rules: seq<Rule>)
    requires Sound(w, followed, path + {key})
    requires key in followed.read && followed.read[key].rules == rules
    requires followed.complete ==> forall r :: r in rules ==> WellFormed(r)
    requires followed.complete ==> forall k :: k in Targets(w, rules) ==> k in followed.finished
    ensures Sound(w, followed.(finished := followed.finished + [key]), path)
  {
    var r := followed.(finished := followed.finished + [key]);
    if r.complete {
      forall i | 0 <= i < |r.finished|
        ensures r.finished[i] in r.read && forall k :: k in Targets(w, r.read[r.finished[i]].rules) ==> k in r.finished[..i]
      {
        if i < |followed.finished| {
          assert r.finished[..i] == followed.finished[..i] && r.finished[i] == followed.finished[i];
        } else {
          assert r.finished[..i] == followed.finished;
        }
      }
    }
  }

  lemma {:induction false} FollowSound(w: World, s: State, rules: seq<Rule>, path: set<Key>, ancestors: set<Node>)
    requires Sound(w, s, path) && (forall k :: k in path ==> k.Node() in ancestors)
    ensures var r := Follow(w, s, rules, ancestors);
            && Sound(w, r, path) && Extends(s, r)
            && (r.complete ==> forall x :: x in rules ==> WellFormed(x))
            && (r.complete ==> forall k :: k in Targets(w, rules) ==> k in r.finished)
    decreases Room(s), |rules| + 1
  {
    if rules != [] {
      var next := FollowOne(w, s, rules[0], ancestors);
      if WellFormed(rules[0]) && rules[0].Execute? { ReadSound(w, s, Target(w, rules[0]), path, ancestors); }
      FollowSound(w, next, rules[1..], path, ancestors);
      var r := Follow(w, s, rules, ancestors);
      if r.complete {
        forall x | x in rules ensures WellFormed(x) { assert x == rules[0] || x in rules[1..]; }
        forall k | k in Targets(w, rules) ensures k in r.finished { TargetsSplit(w, rules, k); }
      }
    }
  }

  lemma TargetsSplit(w: World, rules: seq<Rule>, k: Key)
    requires rules != [] && k in Targets(w, rules)
    ensures (rules[0].Execute? && WellFormed(rules[0]) && k == Target(w, rules[0])) || k in Targets(w, rules[1..])
  {
    var i: nat :| i < |rules| && rules[i].Execute? && WellFormed(rules[i]) && k == Target(w, rules[i]);
    if i > 0 { assert rules[1..][i - 1] == rules[i]; }
  }

  lemma {:induction false} WalkSound(w: World, s: State, roots: seq<Key>)
    requires Sound(w, s, {})
    ensures Sound(w, Walk(w, s, roots), {}) && Extends(s, Walk(w, s, roots))
    ensures Walk(w, s, roots).complete ==> forall k :: k in roots ==> k in Walk(w, s, roots).finished
    decreases |roots|
  {
    if roots != [] {
      ReadSound(w, s, roots[0], {}, {});
      WalkSound(w, Read(w, s, roots[0], {}), roots[1..]);
    }
  }

  /** `k` executes `j`, by the document read for `k`. */
  ghost predicate Edge(w: World, s: State, k: Key, j: Key) {
    k in s.read && j in Targets(w, s.read[k].rules)
  }

  ghost predicate IsPath(w: World, s: State, p: seq<Key>) {
    p != [] && forall i :: 0 <= i < |p| - 1 ==> Edge(w, s, p[i], p[i + 1])
  }

  /** Everything a raised flag promises. */
  ghost predicate CompleteGraph(w: World, s: State, roots: seq<Key>) {
    && (forall k :: k in roots ==> k in s.visited)
    && (forall k :: k in s.visited ==>
          && k in s.read && Answers(k, s.read[k])
          && (forall r :: r in s.read[k].rules ==> WellFormed(r))
          && (exists n: nat :: n < s.requests && w.serve(n, k).document == Some(s.read[k])))
    && (forall k, j :: k in s.visited && Edge(w, s, k, j) ==> j in s.visited)
    && |s.visited| <= MAX_RULESETS
    && (forall p :: IsPath(w, s, p) && p[0] in s.visited && |p| > 1 ==> p[0] != p[|p| - 1])
  }

  /** Along an edge path, each key finished strictly before the first. */
  lemma {:induction false} PathDescends(w: World, s: State, p: seq<Key>, i: nat) returns (j: nat)
    requires Ordered(w, s) && IsPath(w, s, p) && |p| > 1 && i < |s.finished| && s.finished[i] == p[0]
    ensures j < i && s.finished[j] == p[|p| - 1]
    decreases |p|
  {
    assert Edge(w, s, p[0], p[1]);
    j :| 0 <= j < i && s.finished[..i][j] == p[1];
    if |p| > 2 {
      var rest := p[1..];
      forall m | 0 <= m < |rest| - 1 ensures Edge(w, s, rest[m], rest[m + 1]) { assert Edge(w, s, p[m + 1], p[m + 2]); }
      j := PathDescends(w, s, rest, j);
    }
  }

  lemma {:induction false} NoCycle(w: World, s: State, p: seq<Key>, i: nat)
    requires Ordered(w, s) && IsPath(w, s, p) && |p| > 1 && i < |s.finished| && s.finished[i] == p[0]
    ensures p[0] != p[|p| - 1]
    decreases i
  {
    var j := PathDescends(w, s, p, i);
    if p[0] == p[|p| - 1] { NoCycle(w, s, p, j); }
  }

  lemma FinishedIsVisited(w: World, s: State, k: Key)
    requires Sound(w, s, {}) && s.complete && k in s.finished
    ensures k in s.visited
  {
  }

  lemma VisitedWasServed(w: World, s: State, k: Key)
    requires Sound(w, s, {}) && s.complete && k in s.visited
    ensures k in s.read && Answers(k, s.read[k]) && (forall r :: r in s.read[k].rules ==> WellFormed(r))
    ensures exists n: nat :: n < s.requests && w.serve(n, k).document == Some(s.read[k])
  {
  }

  lemma EdgeStays(w: World, s: State, k: Key, j: Key)
    requires Sound(w, s, {}) && s.complete && k in s.visited && Edge(w, s, k, j)
    ensures j in s.visited
  {
    var i :| 0 <= i < |s.finished| && s.finished[i] == k;
    assert j in s.finished[..i];
  }

  lemma VisitedIsBounded(w: World, s: State)
    requires Sound(w, s, {}) && s.complete
    ensures |s.visited| <= MAX_RULESETS
  {
  }

  lemma PathIsOpen(w: World, s: State, p: seq<Key>)
    requires Sound(w, s, {}) && s.complete && IsPath(w, s, p) && p[0] in s.visited && |p| > 1
    ensures p[0] != p[|p| - 1]
  {
    var i :| 0 <= i < |s.finished| && s.finished[i] == p[0];
    NoCycle(w, s, p, i);
  }

  lemma SoundGraphIsComplete(w: World, r: State, roots: seq<Key>)
    requires Sound(w, r, {}) && r.complete && forall k :: k in roots ==> k in r.finished
    ensures CompleteGraph(w, r, roots)
  {
    hide Sound, Targets, Edge, Answers, WellFormed;
    forall k | k in roots ensures k in r.visited { FinishedIsVisited(w, r, k); }
    forall k | k in r.visited
      ensures k in r.read && Answers(k, r.read[k]) && (forall x :: x in r.read[k].rules ==> WellFormed(x))
      ensures exists n: nat :: n < r.requests && w.serve(n, k).document == Some(r.read[k])
    {
      VisitedWasServed(w, r, k);
    }
    forall k, j | k in r.visited && Edge(w, r, k, j) ensures j in r.visited { EdgeStays(w, r, k, j); }
    VisitedIsBounded(w, r);
    forall p | IsPath(w, r, p) && p[0] in r.visited && |p| > 1 ensures p[0] != p[|p| - 1] { PathIsOpen(w, r, p); }
  }

  /** If the walk ends with its flag up, the marked keys contain every root, are closed under execution,
      number at most 32, and form an acyclic graph; each was served a well-formed document. */
  lemma CompleteWalkIsClosedAndAcyclic(w: World, requests: nat, bytes: nat, complete: bool, roots: seq<Key>)
    ensures var r := Walk(w, Start(requests, bytes, complete), roots);
            r.complete ==> CompleteGraph(w, r, roots)
  {
    WalkSound(w, Start(requests, bytes, complete), roots);
    hide Sound, Walk, CompleteGraph, Extends;
    var r := Walk(w, Start(requests, bytes, complete), roots);
    if r.complete { SoundGraphIsComplete(w, r, roots); }
  }

  // ---------- A valid graph within the budgets keeps the flag ----------

  /** The documents behind a set of keys, and their sizes. */
  datatype Graph = Graph(documents: map<Key, Document>, size: map<Key, nat>)

  /** A path of executions from a root. */
  ghost predicate RootPath(w: World, g: Graph, roots: seq<Key>, p: seq<Key>) {
    && p != [] && p[0] in roots
    && forall i :: 0 <= i < |p| - 1 ==> p[i] in g.documents && p[i + 1] in Targets(w, g.documents[p[i]].rules)
  }

  /** At most 32 well-formed documents, closed under execution, holding every root, and no path from a
      root meeting one (scope, id) twice. */
  ghost predicate ValidGraph(w: World, g: Graph, roots: seq<Key>) {
    && |g.documents.Keys| <= MAX_RULESETS
    && (forall k :: k in roots ==> k in g.documents)
    && (forall k :: k in g.documents ==>
          && Answers(k, g.documents[k])
          && (forall r :: r in g.documents[k].rules ==> WellFormed(r))
          && (forall j :: j in Targets(w, g.documents[k].rules) ==> j in g.documents))
    && (forall p: seq<Key>, i, j :: RootPath(w, g, roots, p) && 0 <= i < j < |p| ==> p[i].Node() != p[j].Node())
  }

  ghost function Bytes(size: map<Key, nat>, keys: set<Key>): nat
    requires keys <= size.Keys
  {
    if keys == {} then 0 else var k :| k in keys; size[k] + Bytes(size, keys - {k})
  }

  lemma {:induction false} BytesOf(size: map<Key, nat>, keys: set<Key>, k: Key)
    requires keys <= size.Keys && k in keys
    ensures Bytes(size, keys) == size[k] + Bytes(size, keys - {k})
  {
    var j :| j in keys && Bytes(size, keys) == size[j] + Bytes(size, keys - {j});
    if j != k {
      BytesOf(size, keys - {j}, k);
      BytesOf(size, keys - {k}, j);
      assert keys - {j} - {k} == keys - {k} - {j};
    }
  }

  lemma {:induction false} BytesMonotone(size: map<Key, nat>, keys: set<Key>, more: set<Key>)
    requires keys <= more <= size.Keys
    ensures Bytes(size, keys) <= Bytes(size, more)
    decreases more
  {
    if more != {} {
      var k :| k in more;
      BytesOf(size, more, k);
      if k in keys { BytesOf(size, keys, k); }
      BytesMonotone(size, keys - {k}, more - {k});
      if k !in keys { assert keys - {k} == keys; }
    }
  }

  /** The account answers every key of the graph, in time, and the whole graph fits what is left of the
      request and byte budgets. */
  ghost predicate Affordable(w: World, g: Graph, requests: nat, bytes: nat) {
    && g.size.Keys == g.documents.Keys
    && (forall k :: k in g.documents ==> 0 < g.size[k] <= LIMIT)
    && (forall n: nat, k: Key :: k in g.documents ==> w.serve(n, k) == Reply(g.size[k], Some(g.documents[k])))
    && (forall n: nat :: n < MAX_REQUESTS ==> !w.late(n))
    && requests + |g.documents.Keys| <= MAX_REQUESTS
    && bytes + Bytes(g.size, g.documents.Keys) <= MAX_TOTAL_BYTES
  }

  /** Exactly the marked keys were requested and paid for. */
  ghost predicate Paid(g: Graph, requests: nat, bytes: nat, s: State) {
    && g.size.Keys == g.documents.Keys && s.visited <= g.documents.Keys && s.nodes == |s.visited|
    && s.requests == requests + s.nodes
    && s.bytes == bytes + Bytes(g.size, s.visited)
    && s.complete
  }

  lemma CaptureSucceeds(w: World, g: Graph, requests: nat, bytes: nat, s: State, key: Key)
    requires Affordable(w, g, requests, bytes) && Paid(g, requests, bytes, s)
    requires key in g.documents && key !in s.visited
    ensures s.nodes < |g.documents.Keys|
    ensures Capture(w, Enter(s, key), key).1 == Some(g.documents[key])
    ensures Paid(g, requests, bytes, Capture(w, Enter(s, key), key).0)
    ensures Capture(w, Enter(s, key), key).0.nodes == s.nodes + 1
  {
    assert s.visited < g.documents.Keys;
    SmallerSet(s.visited, g.documents.Keys);
    var marked := s.visited + {key};
    BytesOf(g.size, marked, key);
    assert marked - {key} == s.visited;
    BytesMonotone(g.size, marked, g.documents.Keys);
  }

  lemma SmallerSet(a: set<Key>, b: set<Key>)
    requires a < b
    ensures |a| < |b|
  {
    assert b == a + (b - a);
  }

  lemma {:induction false} ReadStays(w: World, g: Graph, roots: seq<Key>, requests: nat, bytes: nat,
                                     s: State, key: Key, path: seq<Key>, ancestors: set<Node>)
    requires ValidGraph(w, g, roots) && Affordable(w, g, requests, bytes) && Paid(g, requests, bytes, s)
    requires key in g.documents && RootPath(w, g, roots, path + [key])
    requires forall a :: a in ancestors ==> exists i :: 0 <= i < |path| && path[i].Node() == a
    ensures Paid(g, requests, bytes, Read(w, s, key, ancestors))
    decreases Room(s), 0
  {
    hide Capture, Targets, Bytes, Affordable, Follow, ValidGraph, RootPath, Paid;
    var p := path + [key];
    if key.Node() in ancestors {
      RootPathMeetsNodesOnce(w, g, roots, path, key, ancestors);
    } else if key !in s.visited {
      CaptureSucceeds(w, g, requests, bytes, s, key);
      var (captured, value) := Capture(w, Enter(s, key), key);
      var within := ancestors + {key.Node()};
      AncestorsExtend(path, key, ancestors);
      PaidIsAboutCosts(g, requests, bytes, captured, key, value.value);
      DocumentsAnswer(w, g, roots, key);
      var inner := captured.(read := captured.read[key := value.value]);
      FollowStays(w, g, roots, requests, bytes, inner, key, 0, p, within);
      assert g.documents[key].rules[0..] == value.value.rules;
      PaidIsAboutCosts(g, requests, bytes, Follow(w, inner, value.value.rules, within), key, value.value);
    }
  }

  lemma RootPathMeetsNodesOnce(w: World, g: Graph, roots: seq<Key>, path: seq<Key>, key: Key, ancestors: set<Node>)
    requires ValidGraph(w, g, roots) && RootPath(w, g, roots, path + [key])
    requires forall a :: a in ancestors ==> exists i :: 0 <= i < |path| && path[i].Node() == a
    ensures key.Node() !in ancestors
  {
    var p := path + [key];
    forall a | a in ancestors ensures a != key.Node() {
      var i :| 0 <= i < |path| && path[i].Node() == a;
      assert p[i].Node() != p[|path|].Node();
    }
  }

  lemma AncestorsExtend(path: seq<Key>, key: Key, ancestors: set<Node>)
    requires forall a :: a in ancestors ==> exists i :: 0 <= i < |path| && path[i].Node() == a
    ensures forall a :: a in ancestors + {key.Node()} ==> exists i :: 0 <= i < |path + [key]| && (path + [key])[i].Node() == a
  {
    var p := path + [key];
    forall a | a in ancestors + {key.Node()} ensures exists i :: 0 <= i < |p| && p[i].Node() == a {
      if a == key.Node() { assert p[|path|].Node() == a; } else {
        var i :| 0 <= i < |path| && path[i].Node() == a;
        assert p[i].Node() == a;
      }
    }
  }

  lemma PaidIsAboutCosts(g: Graph, requests: nat, bytes: nat, s: State, key: Key, d: Document)
    requires Paid(g, requests, bytes, s)
    ensures Paid(g, requests, bytes, s.(read := s.read[key := d]))
    ensures forall f: seq<Key> :: Paid(g, requests, bytes, s.(finished := f))
  {
  }

  lemma DocumentsAnswer(w: World, g: Graph, roots: seq<Key>, key: Key)
    requires ValidGraph(w, g, roots) && key in g.documents
    ensures Answers(key, g.documents[key]) && |g.documents.Keys| <= MAX_RULESETS
  {
  }

  lemma {:induction false} FollowStays(w: World, g: Graph, roots: seq<Key>, requests: nat, bytes: nat,
                                       s: State, from: Key, i: nat, path: seq<Key>, ancestors: set<Node>)
    requires ValidGraph(w, g, roots) && Affordable(w, g, requests, bytes) && Paid(g, requests, bytes, s)
    requires RootPath(w, g, roots, path) && path[|path| - 1] == from && from in g.documents
    requires forall a :: a in ancestors ==> exists i :: 0 <= i < |path| && path[i].Node() == a
    requires i <= |g.documents[from].rules|
    ensures Paid(g, requests, bytes, Follow(w, s, g.documents[from].rules[i..], ancestors))
    decreases Room(s), |g.documents[from].rules| - i + 1
  {
    hide Affordable, Bytes;
    var rules := g.documents[from].rules;
    if i < |rules| {
      assert rules[i..][1..] == rules[i + 1..] && rules[i] in rules;
      var next := FollowOne(w, s, rules[i], ancestors);
      if rules[i].Execute? {
        var target := Target(w, rules[i]);
        assert target in Targets(w, rules);
        RootPathExtends(w, g, roots, path, target);
        ReadStays(w, g, roots, requests, bytes, s, target, path, ancestors);
      }
      FollowStays(w, g, roots, requests, bytes, next, from, i + 1, path, ancestors);
    }
  }

  lemma RootPathExtends(w: World, g: Graph, roots: seq<Key>, path: seq<Key>, target: Key)
    requires RootPath(w, g, roots, path) && path[|path| - 1] in g.documents
    requires target in Targets(w, g.documents[path[|path| - 1]].rules)
    ensures RootPath(w, g, roots, path + [target])
  {
  }

  lemma {:induction false} WalkStays(w: World, g: Graph, roots: seq<Key>, requests: nat, bytes: nat, s: State, i: nat)
    requires ValidGraph(w, g, roots) && Affordable(w, g, requests, bytes) && Paid(g, requests, bytes, s) && i <= |roots|
    ensures Paid(g, requests, bytes, Walk(w, s, roots[i..]))
    decreases |roots| - i
  {
    if i < |roots| {
      assert roots[i..][1..] == roots[i + 1..];
      assert [] + [roots[i]] == [roots[i]] && RootPath(w, g, roots, [roots[i]]);
      ReadStays(w, g, roots, requests, bytes, s, roots[i], [], {});
      WalkStays(w, g, roots, requests, bytes, Read(w, s, roots[i], {}), i + 1);
    }
  }

  /** A valid graph within what is left of the budgets ends with the flag up, having requested nothing
      outside it and nothing twice. */
  lemma ValidGraphWalkIsComplete(w: World, g: Graph, roots: seq<Key>, requests: nat, bytes: nat)
    requires ValidGraph(w, g, roots) && Affordable(w, g, requests, bytes)
    ensures var r := Walk(w, Start(requests, bytes, true), roots);
            && r.complete && CompleteGraph(w, r, roots)
            && r.visited <= g.documents.Keys && r.requests == requests + |r.visited|
  {
    assert Paid(g, requests, bytes, Start(requests, bytes, true));
    WalkStays(w, g, roots, requests, bytes, Start(requests, bytes, true), 0);
    assert roots[0..] == roots;
    CompleteWalkIsClosedAndAcyclic(w, requests, bytes, true, roots);
  }

  // ---------- The graph without versions ----------

  /** `a` executes `b` once versions are forgotten. */
  ghost predicate NodeEdge(w: World, s: State, a: Node, b: Node) {
    exists k: Key, j: Key :: k in s.visited && Edge(w, s, k, j) && k.Node() == a && j.Node() == b
  }

  ghost predicate IsNodePath(w: World, s: State, nodes: seq<Node>) {
    nodes != [] && forall i :: 0 <= i < |nodes| - 1 ==> NodeEdge(w, s, nodes[i], nodes[i + 1])
  }

  /** No ruleset was met under two versions. */
  ghost predicate OneVersionEach(s: State) {
    forall k: Key, j: Key :: k in s.visited && j in s.visited && k.Node() == j.Node() ==> k == j
  }

  /** The marked keys behind a path of nodes. */
  lemma {:induction false} LiftPath(w: World, s: State, roots: seq<Key>, nodes: seq<Node>) returns (p: seq<Key>)
    requires CompleteGraph(w, s, roots) && OneVersionEach(s) && IsNodePath(w, s, nodes) && |nodes| > 1
    ensures |p| == |nodes| && IsPath(w, s, p)
    ensures forall i :: 0 <= i < |p| ==> p[i] in s.visited && p[i].Node() == nodes[i]
    decreases |nodes|
  {
    hide Edge;
    assert NodeEdge(w, s, nodes[0], nodes[1]);
    var k: Key, j: Key :| k in s.visited && Edge(w, s, k, j) && k.Node() == nodes[0] && j.Node() == nodes[1];
    assert j in s.visited;
    if |nodes| == 2 {
      p := [k, j];
    } else {
      var rest := nodes[1..];
      forall i | 0 <= i < |rest| - 1 ensures NodeEdge(w, s, rest[i], rest[i + 1]) {
        assert NodeEdge(w, s, nodes[i + 1], nodes[i + 2]);
      }
      var tail := LiftPath(w, s, roots, rest);
      assert tail[0] == j;
      p := [k] + tail;
      forall i | 0 <= i < |p| - 1 ensures Edge(w, s, p[i], p[i + 1]) {
        if i > 0 { assert Edge(w, s, tail[i - 1], tail[i]); }
      }
    }
  }

  /** If the walk ends with its flag up and met no ruleset under two versions, then the graph without versions
      is acyclic too: no path of (scope, id) returns to its start. */
  lemma OneVersionGraphIsAcyclic(w: World, requests: nat, bytes: nat, complete: bool, roots: seq<Key>, nodes: seq<Node>)
    requires var r := Walk(w, Start(requests, bytes, complete), roots);
             r.complete && OneVersionEach(r) && IsNodePath(w, r, nodes) && |nodes| > 1
    ensures nodes[0] != nodes[|nodes| - 1]
  {
    hide Walk, IsNodePath, IsPath;
    CompleteWalkIsClosedAndAcyclic(w, requests, bytes, complete, roots);
    var p := LiftPath(w, Walk(w, Start(requests, bytes, complete), roots), roots, nodes);
    assert p[0] != p[|p| - 1];
  }

  const SCOPE: string := "/accounts/a"

  /** One ruleset executes version 2 of a second; version 1 of the second executes the first. */
  function Crossing(x: string, y: string, k: Key): Document {
    if k.id == y then Document(y, "1", [Execute(Some(x), Some("2"))])
    else if k.version == "2" then Document(x, "2", [])
    else Document(x, "1", [Execute(Some(y), Some(""))])
  }

  function CrossingWorld(x: string, y: string): World {
    World((n: nat, k: Key) => Reply(1, Some(Crossing(x, y, k))), (n: nat) => false, map[], "a")
  }

  lemma FollowOnly(w: World, s: State, rule: Rule, ancestors: set<Node>)
    requires rule.Execute? && WellFormed(rule)
    ensures Follow(w, s, [rule], ancestors) == Read(w, s, Target(w, rule), ancestors)
  {
    var next := FollowOne(w, s, rule, ancestors);
    assert [rule][1..] == [];
    assert Follow(w, next, [], ancestors) == next;
  }

  lemma CrossingTargets(x: string, y: string)
    requires RulesetId(x) && RulesetId(y)
    ensures Target(CrossingWorld(x, y), Execute(Some(x), Some("2"))) == Key(SCOPE, x, "2")
    ensures Target(CrossingWorld(x, y), Execute(Some(y), Some(""))) == Key(SCOPE, y, "")
  {
    assert "/accounts/" + "a" == SCOPE;
  }

  lemma ReadOpens(w: World, s: State, key: Key, ancestors: set<Node>, d: Document)
    requires key.Node() !in ancestors && key !in s.visited && s.nodes < MAX_RULESETS
    requires Capture(w, Enter(s, key), key).1 == Some(d) && Answers(key, d)
    ensures var captured := Capture(w, Enter(s, key), key).0;
            var followed := Follow(w, captured.(read := captured.read[key := d]), d.rules, ancestors + {key.Node()});
            Read(w, s, key, ancestors) == followed.(finished := followed.finished + [key])
  {
    hide Capture, Answers, Follow;
  }

  lemma CrossingCapture(x: string, y: string, s: State, k: Key)
    requires s.requests < MAX_REQUESTS && s.bytes < 1000
    ensures Capture(CrossingWorld(x, y), Enter(s, k), k)
            == (Enter(s, k).(requests := s.requests + 1, bytes := s.bytes + 1), Some(Crossing(x, y, k)))
  {
    hide Crossing;
  }

  /** The leaf, read below the first ruleset. */
  lemma LeafRead(x: string, y: string, s: State)
    requires RulesetId(x) && x != y && s.nodes < MAX_RULESETS && s.requests < MAX_REQUESTS && s.bytes < 1000
    requires Key(SCOPE, x, "2") !in s.visited
    ensures var k := Key(SCOPE, x, "2");
            Read(CrossingWorld(x, y), s, k, {At(SCOPE, y)})
            == State(s.visited + {k}, s.nodes + 1, s.requests + 1, s.bytes + 1, s.complete,
                     s.read[k := Crossing(x, y, k)], s.finished + [k])
  {
    var w, k := CrossingWorld(x, y), Key(SCOPE, x, "2");
    assert w.serve(s.requests, k) == Reply(1, Some(Document(x, "2", []))) && !w.late(s.requests);
    assert Answers(k, Document(x, "2", [])) by { assert Digits("2"); }
  }

  lemma FirstRead(x: string, y: string)
    requires RulesetId(x) && RulesetId(y) && x != y
    ensures var first, second := Key(SCOPE, y, ""), Key(SCOPE, x, "2");
            Read(CrossingWorld(x, y), Start(0, 0, true), first, {})
            == State({first, second}, 2, 2, 2, true,
                     map[first := Crossing(x, y, first), second := Crossing(x, y, second)], [second, first])
  {
    var w, first, second := CrossingWorld(x, y), Key(SCOPE, y, ""), Key(SCOPE, x, "2");
    var d, s := Crossing(x, y, first), Start(0, 0, true);
    assert Answers(first, d) by { assert Digits("1"); }
    CrossingTargets(x, y);
    CrossingCapture(x, y, s, first);
    hide Answers, Capture, Read;
    ReadOpens(w, s, first, {}, d);
    var inner := State({first}, 1, 1, 1, true, map[first := d], []);
    assert Enter(s, first).visited == {first};
    assert {} + {first.Node()} == {At(SCOPE, y)};
    assert d.rules == [d.rules[0]];
    FollowOnly(w, inner, d.rules[0], {At(SCOPE, y)});
    LeafRead(x, y, inner);
    assert [] + [second] + [first] == [second, first] && {first} + {second} == {first, second};
  }

  lemma SecondRoot(x: string, y: string, s: State)
    requires RulesetId(x) && RulesetId(y) && x != y
    requires s.nodes < MAX_RULESETS && s.requests < MAX_REQUESTS && s.bytes < 1000
    requires Key(SCOPE, x, "1") !in s.visited && Key(SCOPE, y, "") in s.visited
    ensures var k := Key(SCOPE, x, "1");
            Read(CrossingWorld(x, y), s, k, {})
            == State(s.visited + {k}, s.nodes + 1, s.requests + 1, s.bytes + 1, s.complete,
                     s.read[k := Crossing(x, y, k)], s.finished + [k])
  {
    var w, k := CrossingWorld(x, y), Key(SCOPE, x, "1");
    var d := Crossing(x, y, k);
    assert Answers(k, d) by { assert Digits("1"); }
    CrossingTargets(x, y);
    CrossingCapture(x, y, s, k);
    ReadOpens(w, s, k, {}, d);
    var inner := State(s.visited + {k}, s.nodes + 1, s.requests + 1, s.bytes + 1, s.complete, s.read[k := d], s.finished);
    assert d.rules == [d.rules[0]];
    FollowOnly(w, inner, d.rules[0], {} + {k.Node()});
    VisitedIsSkipped(w, inner, Key(SCOPE, y, ""), {} + {k.Node()});
    hide Answers, Capture, Read;
  }

  lemma VisitedIsSkipped(w: World, s: State, k: Key, ancestors: set<Node>)
    requires k in s.visited && k.Node() !in ancestors
    ensures Read(w, s, k, ancestors) == s
  {
  }

  /** With two versions of one ruleset it may not be: the walk meets them as separate keys and
      keeps its flag, although without versions the two rulesets execute each other. */
  lemma UnversionedGraphMayBeCyclic(x: string, y: string) returns (roots: seq<Key>, second: Key)
    requires RulesetId(x) && RulesetId(y) && x != y
    ensures |roots| == 2 && roots[1].Node() == second.Node()
    ensures var w := CrossingWorld(x, y);
            var r := Walk(w, Start(0, 0, true), roots);
            && r.complete && CompleteGraph(w, r, roots)
            && second in r.visited && Edge(w, r, roots[0], second) && Edge(w, r, roots[1], roots[0])
  {
    hide Read, CompleteGraph;
    var first, third := Key(SCOPE, y, ""), Key(SCOPE, x, "1");
    second := Key(SCOPE, x, "2");
    roots := [first, third];
    var w, s := CrossingWorld(x, y), Start(0, 0, true);
    FirstRead(x, y);
    var mid := Read(w, s, first, {});
    SecondRoot(x, y, mid);
    var end := Read(w, mid, third, {});
    assert roots[1..] == [third] && [third][1..] == [];
    assert Walk(w, end, []) == end;
    assert Walk(w, mid, [third]) == end;
    assert Walk(w, s, roots) == end;
    CompleteWalkIsClosedAndAcyclic(w, 0, 0, true, roots);
    CrossingTargets(x, y);
    var a, c := Crossing(x, y, first), Crossing(x, y, third);
    assert a.rules[0] == Execute(Some(x), Some("2")) && c.rules[0] == Execute(Some(y), Some(""));
    assert second in Targets(w, a.rules) && first in Targets(w, c.rules);
  }
}
