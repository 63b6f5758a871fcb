/** `groupedRequests`: requests of a stream that want the same data are sent once. */
module Grouping {
  import opened Text

  /** A request of a stream. `otherTileId` names the tile whose data this tile wants to read. */
  datatype Request = Request(tileId: int, queryIdx: int, otherTileId: Option<int>, url: string,
                             contentType: string, isEventSource: bool)

  datatype ReqIdent = ReqIdent(tileId: int, queryIdx: int)

  function TargetTile(r: Request): int {
    if r.otherTileId.Some? then r.otherTileId.value else r.tileId
  }

  function GroupingKey(r: Request): string {
    Itoa(TargetTile(r)) + "." + Itoa(r.queryIdx)
  }

  /** What the stream calls the event that carries a request's answer. */
  function EventLabel(id: ReqIdent): string {
    "DataTile-" + Itoa(id.tileId) + "." + Itoa(id.queryIdx)
  }

  function Ident(r: Request): ReqIdent {
    ReqIdent(r.tileId, r.queryIdx)
  }

  lemma DottedUnique(a: int, b: int, x: int, y: int)
    requires Itoa(a) + "." + Itoa(b) == Itoa(x) + "." + Itoa(y)
    ensures a == x && b == y
  {
    SplitUnique(Itoa(a), Itoa(b), Itoa(x), Itoa(y), '.');
    ItoaInjective(a, x);
    ItoaInjective(b, y);
  }

  /** The tile that a request names as the one to read from, or else its own. */
  predicate Targets(r: Request, tile: int) {
    r.otherTileId == Some(tile) || (r.otherTileId == None && r.tileId == tile)
  }

  /** Two requests share a key exactly when they want the same tile's answer to the same query. */
  lemma KeysIdentifyTargets(r: Request, s: Request)
    ensures GroupingKey(r) == GroupingKey(s) <==>
            r.queryIdx == s.queryIdx && exists tile :: Targets(r, tile) && Targets(s, tile)
  {
    assert Targets(r, TargetTile(r)) && Targets(s, TargetTile(s));
    if GroupingKey(r) == GroupingKey(s) {
      DottedUnique(TargetTile(r), r.queryIdx, TargetTile(s), s.queryIdx);
    }
  }

  /** A request that reads from an independent one's tile has its key; two independent requests share a key exactly
      if they are for the same tile and query. */
  lemma DependentsShareKey(r: Request, s: Request)
    requires r.otherTileId == None
    ensures s.otherTileId == Some(r.tileId) && s.queryIdx == r.queryIdx ==> GroupingKey(s) == GroupingKey(r)
    ensures s.otherTileId == None ==> (GroupingKey(s) == GroupingKey(r) <==> Ident(s) == Ident(r))
  {
    KeysIdentifyTargets(r, s);
    assert Targets(r, r.tileId);
    assert s.otherTileId == Some(r.tileId) ==> Targets(s, r.tileId);
  }

  function ParseInt(s: string): int {
    if s != "" && s[0] == '-' then -ValueOf(s[1..]) else ValueOf(s)
  }

  lemma ParseIntRoundTrip(n: int)
    ensures ParseInt(Itoa(n)) == n
  {
    if n < 0 {
      ValueOfDigits(-n);
      assert Itoa(n)[1..] == Digits(-n);
    } else {
      ValueOfDigits(n);
      assert Itoa(n) == Digits(n);
      assert Digits(n)[0] != '-';
    }
  }

  /** How a page finds out from an event's type which tile and query it is about. */
  function ParseLabel(text: string): Option<ReqIdent> {
    if !HasPrefix(text, "DataTile-") then None
    else
      var rest := text[9..];
      var i := IndexOf(rest, '.');
      if i == |rest| then None else Some(ReqIdent(ParseInt(rest[..i]), ParseInt(rest[i + 1..])))
  }

  lemma LabelRoundTrip(id: ReqIdent)
    ensures ParseLabel(EventLabel(id)) == Some(id)
  {
    ParseIntRoundTrip(id.tileId);
    ParseIntRoundTrip(id.queryIdx);
    ParseParts(Itoa(id.tileId), Itoa(id.queryIdx));
  }

  lemma ParseParts(t: string, q: string)
    requires '.' !in t
    ensures ParseLabel("DataTile-" + t + "." + q) == Some(ReqIdent(ParseInt(t), ParseInt(q)))
  {
    var start, rest := "DataTile-", t + "." + q;
    assert start + t + "." + q == start + rest;
    assert (start + rest)[|start|..] == rest && HasPrefix(start + rest, start);
    assert rest == t + ("." + q);
    IndexOfNone(t, "." + q, '.');
    assert rest[..|t|] == t && rest[|t| + 1..] == q;
  }

  /** The label of a request's answer names the request's tile and query. */
  lemma LabelNamesRequest(r: Request)
    ensures var id := ParseLabel(EventLabel(Ident(r)));
            id.Some? && id.value.tileId == r.tileId && id.value.queryIdx == r.queryIdx
  {
    LabelRoundTrip(Ident(r));
  }

  lemma LabelsIdentify(a: ReqIdent, b: ReqIdent)
    ensures EventLabel(a) == EventLabel(b) <==> a == b
  {
    LabelRoundTrip(a);
    LabelRoundTrip(b);
  }

  class GroupedRequests {
    var groups: map<string, seq<Request>>

    constructor ()
      ensures groups == map[]
    {
      groups := map[];
    }

    /** A request without a dependency goes to the front of its group, any other to the end. */
    method Register(req: Request)
      modifies this
      ensures groups == Registered(old(groups), req)
    {
      var reqKey := GroupingKey(req);
      if reqKey in groups {
        var vals := groups[reqKey];
        if req.otherTileId == None {
          vals := [req] + vals;
        } else {
          vals := vals + [req];
        }
        groups := groups[reqKey := vals];
      } else {
        assert [req] == [req] + [] == [] + [req];
        groups := groups[reqKey := [req]];
      }
    }

    /** Visits every group once, in any order: its first request and the tiles waiting for it. */
    method ValIter() returns (keys: seq<string>, leaders: seq<Request>, tiles: seq<seq<ReqIdent>>)
      requires forall k <- groups :: groups[k] != []
      ensures |keys| == |leaders| == |tiles| == |groups|
      ensures forall i, j :: 0 <= i < j < |keys| ==> keys[i] != keys[j]
      ensures forall i :: 0 <= i < |keys| ==>
                keys[i] in groups && leaders[i] == groups[keys[i]][0] && tiles[i] == Idents(groups[keys[i]])
    {
      var todo := groups.Keys;
      keys, leaders, tiles := [], [], [];
      while todo != {}
        invariant todo <= groups.Keys
        invariant |keys| == |leaders| == |tiles| == |groups| - |todo|
        invariant forall i, j :: 0 <= i < j < |keys| ==> keys[i] != keys[j]
        invariant forall i :: 0 <= i < |keys| ==>
                    && keys[i] in groups && keys[i] !in todo
                    && leaders[i] == groups[keys[i]][0] && tiles[i] == Idents(groups[keys[i]])
        decreases |todo|
      {
        var k :| k in todo;
        keys, leaders, tiles := keys + [k], leaders + [groups[k][0]], tiles + [Idents(groups[k])];
        todo := todo - {k};
      }
    }
  }

  function Idents(rs: seq<Request>): (ids: seq<ReqIdent>)
    ensures |ids| == |rs| && forall i :: 0 <= i < |rs| ==> ids[i] == Ident(rs[i])
  {
    if rs == [] then [] else [Ident(rs[0])] + Idents(rs[1..])
  }

  function Registered(groups: map<string, seq<Request>>, req: Request): map<string, seq<Request>> {
    var key := GroupingKey(req);
    var vals := if key in groups then groups[key] else [];
    groups[key := if req.otherTileId == None then [req] + vals else vals + [req]]
  }

  function RegisterAll(reqs: seq<Request>): map<string, seq<Request>> {
    if reqs == [] then map[] else Registered(RegisterAll(reqs[..|reqs| - 1]), reqs[|reqs| - 1])
  }

  method GroupRequests(reqs: seq<Request>) returns (grouped: GroupedRequests)
    ensures fresh(grouped) && grouped.groups == RegisterAll(reqs)
  {
    grouped := new GroupedRequests();
    for i := 0 to |reqs|
      invariant grouped.groups == RegisterAll(reqs[..i])
    {
      grouped.Register(reqs[i]);
      assert reqs[..i + 1][..i] == reqs[..i];
    }
    assert reqs[..|reqs|] == reqs;
  }

  // ----- the reference: which requests a group holds, in which order -----

  /** The independent requests of a key, latest first. */
  function Independent(reqs: seq<Request>, key: string): (g: seq<Request>)
    ensures forall r <- g :: r in reqs && GroupingKey(r) == key && r.otherTileId == None
  {
    if reqs == [] then []
    else
      var last := reqs[|reqs| - 1];
      (if GroupingKey(last) == key && last.otherTileId == None then [last] else []) +
      Independent(reqs[..|reqs| - 1], key)
  }

  /** The dependent requests of a key, in the order they came. */
  function Dependent(reqs: seq<Request>, key: string): (g: seq<Request>)
    ensures forall r <- g :: r in reqs && GroupingKey(r) == key && r.otherTileId != None
  {
    if reqs == [] then []
    else
      var last := reqs[|reqs| - 1];
      Dependent(reqs[..|reqs| - 1], key) +
      (if GroupingKey(last) == key && last.otherTileId != None then [last] else [])
  }

  function GroupOf(reqs: seq<Request>, key: string): seq<Request> {
    Independent(reqs, key) + Dependent(reqs, key)
  }

  lemma GroupStep(before: seq<Request>, last: Request, key: string)
    ensures GroupOf(before + [last], key) ==
            if GroupingKey(last) != key then GroupOf(before, key)
            else if last.otherTileId == None then [last] + GroupOf(before, key)
            else GroupOf(before, key) + [last]
  {
    var reqs := before + [last];
    assert reqs[..|reqs| - 1] == before;
    var i, d := Independent(before, key), Dependent(before, key);
    if GroupingKey(last) != key {
      assert [] + i == i && d + [] == d;
    } else if last.otherTileId == None {
      assert d + [] == d;
      assert ([last] + i) + d == [last] + (i + d);
    } else {
      assert [] + i == i;
      assert i + (d + [last]) == (i + d) + [last];
    }
  }

  /** Registering puts into each group exactly the requests of its key: independent ones first
      (latest first), then the dependent ones in order; and there are no other groups. */
  lemma {:induction false} GroupsAreByKey(reqs: seq<Request>, key: string)
    ensures key in RegisterAll(reqs) <==> GroupOf(reqs, key) != []
    ensures key in RegisterAll(reqs) ==> RegisterAll(reqs)[key] == GroupOf(reqs, key)
  {
    if reqs != [] {
      var before, last := reqs[..|reqs| - 1], reqs[|reqs| - 1];
      assert reqs == before + [last];
      GroupsAreByKey(before, key);
      GroupStep(before, last, key);
    }
  }

  /** Grouping is a partition: every request is in the group of its key as often as it was
      registered, and in no other group. */
  lemma {:induction false} GroupingIsPartition(reqs: seq<Request>, key: string, r: Request)
    ensures multiset(GroupOf(reqs, key))[r] == if GroupingKey(r) == key then multiset(reqs)[r] else 0
  {
    if reqs != [] {
      var before, last := reqs[..|reqs| - 1], reqs[|reqs| - 1];
      assert reqs == before + [last];
      GroupingIsPartition(before, key, r);
      GroupStep(before, last, key);
      assert multiset(before + [last]) == multiset(before) + multiset{last};
      var g := GroupOf(before, key);
      assert multiset([last] + g) == multiset{last} + multiset(g);
      assert multiset(g + [last]) == multiset(g) + multiset{last};
    }
  }

  /** Within a group, a request that depends on another tile never precedes an independent one. */
  lemma IndependentFirst(reqs: seq<Request>, key: string, i: nat, j: nat)
    requires i < j < |GroupOf(reqs, key)|
    requires GroupOf(reqs, key)[j].otherTileId == None
    ensures GroupOf(reqs, key)[i].otherTileId == None
  {
    var g := GroupOf(reqs, key);
    SecondPart(Independent(reqs, key), Dependent(reqs, key), j);
    assert g[i] in Independent(reqs, key);
  }

  lemma SecondPart(a: seq<Request>, b: seq<Request>, j: nat)
    requires j < |a + b|
    ensures j < |a| || (a + b)[j] in b
  {}

  /** A request that reads from the tile of an independent one is in that one's group, and the group is led by an
      independent request for that tile and query: it is sent once, and both tiles get its data. */
  lemma DependentJoinsItsTile(reqs: seq<Request>, r: Request, s: Request)
    requires r in reqs && s in reqs && r.otherTileId == None
    requires s.otherTileId == Some(r.tileId) && s.queryIdx == r.queryIdx
    ensures var key := GroupingKey(r);
            && key in RegisterAll(reqs)
            && var g := RegisterAll(reqs)[key];
               && r in g && s in g && g[0].otherTileId == None && Ident(g[0]) == Ident(r)
  {
    var key := GroupingKey(r);
    DependentsShareKey(r, s);
    GroupingIsPartition(reqs, key, r);
    GroupingIsPartition(reqs, key, s);
    assert r in multiset(reqs) && s in multiset(reqs);
    var g := GroupOf(reqs, key);
    assert r in multiset(g) && s in multiset(g);
    GroupsAreByKey(reqs, key);
    var i :| 0 <= i < |g| && g[i] == r;
    if i > 0 {
      IndependentFirst(reqs, key, 0, i);
    }
    assert g[0] in Independent(reqs, key) + Dependent(reqs, key);
    DependentsShareKey(r, g[0]);
  }

  predicate DistinctIdents(reqs: seq<Request>) {
    forall i, j :: 0 <= i < j < |reqs| ==> Ident(reqs[i]) != Ident(reqs[j])
  }

  /** When no two requests have the same tile and query, no two groups answer under one label. */
  lemma LeadersHaveDistinctLabels(reqs: seq<Request>, k: string, l: string)
    requires DistinctIdents(reqs)
    requires k in RegisterAll(reqs) && l in RegisterAll(reqs) && k != l
    ensures RegisterAll(reqs)[k] != [] && RegisterAll(reqs)[l] != []
    ensures EventLabel(Ident(RegisterAll(reqs)[k][0])) != EventLabel(Ident(RegisterAll(reqs)[l][0]))
  {
    GroupsAreByKey(reqs, k);
    GroupsAreByKey(reqs, l);
    var a, b := GroupOf(reqs, k)[0], GroupOf(reqs, l)[0];
    assert a in GroupOf(reqs, k) && b in GroupOf(reqs, l);
    assert a in reqs && GroupingKey(a) == k;
    assert b in reqs && GroupingKey(b) == l;
    LabelsIdentify(Ident(a), Ident(b));
    var i :| 0 <= i < |reqs| && reqs[i] == a;
    var j :| 0 <= j < |reqs| && reqs[j] == b;
    assert i != j;
  }

  lemma {:induction false} NoMoreGroupsThanRequests(reqs: seq<Request>)
    ensures |RegisterAll(reqs)| <= |reqs|
  {
    if reqs != [] {
      NoMoreGroupsThanRequests(reqs[..|reqs| - 1]);
    }
  }
}
