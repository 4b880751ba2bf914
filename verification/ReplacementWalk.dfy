/**
 The chain of operators of one backing: a walk over admitted replacement records, read at an index.
 Later reading never rewrites the past: what was in force at an index stays in force there.
 */
module ReplacementWalk {
  import opened Wrappers

  type Key = nat
  type Identity = nat

  /** An admitted record: witnessed at `index`, naming the link it replaces. Identities are ordered as
      their bytes are. */
  datatype Record = Record(index: nat, identity: Identity, predecessor: Identity, successor: Key, effective: nat)

  datatype Link = Link(operator: Key, from: nat, link: Identity)

  datatype Chain = Chain(links: seq<Link>, pending: Option<Link>)

  // ----- What is read at an index

  /** Each identity's first entry witnessed by `now`. */
  function FirstOf(admitted: seq<Record>, now: nat): (first: map<Identity, Record>)
    ensures forall id :: id in first ==> first[id].identity == id && first[id].index <= now
  {
    if admitted == [] then map[]
    else
      var a, first := admitted[|admitted| - 1], FirstOf(admitted[..|admitted| - 1], now);
      if a.index > now || (a.identity in first && first[a.identity].index <= a.index) then first else first[a.identity := a]
  }

  /** A later index adds identities first witnessed since, and nothing else. */
  lemma {:induction false} FirstStable(admitted: seq<Record>, now: nat, later: nat, id: Identity)
    requires now <= later
    ensures var x, y := FirstOf(admitted, now), FirstOf(admitted, later);
      if id in x then id in y && y[id] == x[id] else id in y ==> y[id].index > now
  {
    if admitted != [] {
      FirstStable(admitted[..|admitted| - 1], now, later, id);
    }
  }

  /** What is first is an entry, and no entry of its identity is earlier. */
  lemma {:induction false} FirstIs(admitted: seq<Record>, now: nat, id: Identity)
    ensures var first := FirstOf(admitted, now);
      if id in first then first[id] in admitted && forall r :: r in admitted && r.identity == id ==> first[id].index <= r.index
      else forall r :: r in admitted && r.identity == id ==> r.index > now
  {
    if admitted != [] {
      var n := |admitted| - 1;
      FirstIs(admitted[..n], now, id);
      assert admitted == admitted[..n] + [admitted[n]];
    }
  }

  /** Two answers hold the same records up to an index. An identity is the hash of what was signed, so
      within one index it names one record. */
  ghost predicate Alike(a: seq<Record>, b: seq<Record>, now: nat) {
    && (forall r: Record :: r.index <= now ==> (r in a <==> r in b))
    && (forall r: Record, s: Record :: r in a && s in b && r.identity == s.identity && r.index == s.index ==> r == s)
  }

  /** Whichever answers the records came from, the same are read. */
  lemma AlikeFirst(a: seq<Record>, b: seq<Record>, now: nat)
    requires Alike(a, b, now)
    ensures FirstOf(a, now) == FirstOf(b, now)
  {
    hide FirstOf;
    forall id
      ensures id in FirstOf(a, now) <==> id in FirstOf(b, now)
      ensures id in FirstOf(a, now) ==> FirstOf(a, now)[id] == FirstOf(b, now)[id]
    {
      FirstIs(a, now, id);
      FirstIs(b, now, id);
    }
  }

  /** C2.5.3: the lead floor. */
  predicate Leads(r: Record, lag: nat) {
    r.effective >= r.index + 2 * lag + 1
  }

  /** The records the walk reads. */
  function Floored(admitted: seq<Record>, lag: nat, now: nat): set<Record> {
    var first := FirstOf(admitted, now);
    set id | id in first && Leads(first[id], lag) :: first[id]
  }

  lemma FlooredLater(admitted: seq<Record>, lag: nat, now: nat, later: nat)
    requires now <= later
    ensures Floored(admitted, lag, now) == set r | r in Floored(admitted, lag, later) && r.index <= now
  {
    hide FirstOf;
    forall r
      ensures r in Floored(admitted, lag, now) <==> r in Floored(admitted, lag, later) && r.index <= now
    {
      FirstStable(admitted, now, later, r.identity);
    }
  }

  /** One record an identity, each leading. */
  ghost predicate Distinct(records: set<Record>) {
    forall r, s :: r in records && s in records && r.identity == s.identity ==> r == s
  }

  lemma FlooredDistinct(admitted: seq<Record>, lag: nat, now: nat)
    ensures Distinct(Floored(admitted, lag, now))
    ensures forall r :: r in Floored(admitted, lag, now) ==> Leads(r, lag) && r.index <= now
  {
    hide FirstOf;
  }

  // ----- Candidates in order

  predicate Before(r: Record, s: Record) {
    r.index < s.index || (r.index == s.index && r.identity < s.identity)
  }

  /** In order of index, and of identity at one index. */
  ghost predicate Ordered(list: seq<Record>) {
    forall i, j :: 0 <= i < j < |list| ==> Before(list[i], list[j])
  }

  ghost predicate Lists(list: seq<Record>, records: set<Record>) {
    Ordered(list) && forall r :: r in records <==> r in list
  }

  /** A set of records is ordered one way only. */
  lemma {:induction false} OrderIsOne(a: seq<Record>, b: seq<Record>)
    requires Ordered(a) && Ordered(b) && forall r :: r in a <==> r in b
    ensures a == b
    decreases |a|
  {
    if a == [] {
      HasFirst(b);
    } else {
      assert a[0] in a && a[0] in b;
      assert b[0] in b && b[0] in a;
      FirstIsLeast(a, b[0]);
      FirstIsLeast(b, a[0]);
      forall r
        ensures r in a[1..] <==> r in b[1..]
      {
        InRest(a, r);
        InRest(b, r);
      }
      OrderIsOne(a[1..], b[1..]);
      assert a == [a[0]] + a[1..] && b == [b[0]] + b[1..];
    }
  }

  lemma HasFirst(a: seq<Record>)
    ensures a == [] || exists r :: r in a
  {
    if a != [] {
      assert a[0] in a;
    }
  }

  lemma FirstIsLeast(a: seq<Record>, r: Record)
    requires Ordered(a) && r in a
    ensures r == a[0] || Before(a[0], r)
  {
  }

  lemma InRest(a: seq<Record>, r: Record)
    requires Ordered(a) && a != []
    ensures r in a[1..] <==> r in a && r != a[0]
  {
    if r in a && r != a[0] {
      var i :| 0 <= i < |a| && a[i] == r;
      assert a[1..][i - 1] == r;
    }
    if r in a[1..] {
      var i :| 0 <= i < |a[1..]| && a[1..][i] == r;
      assert a[i + 1] == r;
    }
  }

  /** Whether a record may take over from the incumbent, or revokes by naming it (C2.5.4). */
  predicate Candidate(r: Record, incumbent: Link) {
    r.predecessor == incumbent.link && (r.effective > incumbent.from || r.successor == incumbent.operator)
  }

  function Candidates(records: set<Record>, incumbent: Link): set<Record> {
    set r | r in records && Candidate(r, incumbent)
  }

  /** The standing candidate after those listed: one an index, a later one superseding only where it
      is witnessed before the standing one's force (C2.5.5). */
  function Decide(list: seq<Record>, operator: Key, chosen: Option<Record>, at: Option<nat>): Option<Record> {
    if list == [] then chosen
    else if at == Some(list[0].index) then Decide(list[1..], operator, chosen, at)
    else if chosen.Some? && list[0].index >= chosen.value.effective then chosen
    else Decide(list[1..], operator, if list[0].successor == operator then None else Some(list[0]), Some(list[0].index))
  }

  /** What stands is a listed record that is no revocation. */
  lemma {:induction false} DecidesListed(list: seq<Record>, operator: Key, chosen: Option<Record>, at: Option<nat>)
    ensures var d := Decide(list, operator, chosen, at); d.Some? ==> d == chosen || (d.value in list && d.value.successor != operator)
  {
    if list != [] {
      DecidesListed(list[1..], operator, chosen, at);
      DecidesListed(list[1..], operator, if list[0].successor == operator then None else Some(list[0]), Some(list[0].index));
    }
  }

  /** Records witnessed after an index do not move a choice in force by it, and what they choose is in
      force only after it. */
  lemma {:induction false} LaterKeepsChoice(a: seq<Record>, b: seq<Record>, lag: nat, now: nat, operator: Key, chosen: Option<Record>, at: Option<nat>)
    requires forall r :: r in a ==> r.index <= now
    requires forall r :: r in b ==> r.index > now && Leads(r, lag)
    requires at.Some? ==> at.value <= now
    ensures var d, e := Decide(a, operator, chosen, at), Decide(a + b, operator, chosen, at);
      if d.Some? && d.value.effective <= now then e == d else e.Some? ==> e.value.effective > now
    decreases |a|
  {
    if a == [] {
      assert a + b == b;
      LaterDecides(b, lag, now, operator, chosen, at);
    } else {
      assert (a + b)[1..] == a[1..] + b && (a + b)[0] == a[0];
      assert a[0] in a;
      if at == Some(a[0].index) {
        LaterKeepsChoice(a[1..], b, lag, now, operator, chosen, at);
      } else if !(chosen.Some? && a[0].index >= chosen.value.effective) {
        LaterKeepsChoice(a[1..], b, lag, now, operator, if a[0].successor == operator then None else Some(a[0]), Some(a[0].index));
      }
    }
  }

  lemma LaterDecides(b: seq<Record>, lag: nat, now: nat, operator: Key, chosen: Option<Record>, at: Option<nat>)
    requires forall r :: r in b ==> r.index > now && Leads(r, lag)
    requires at.Some? ==> at.value <= now
    ensures var e := Decide(b, operator, chosen, at);
      if chosen.Some? && chosen.value.effective <= now then e == chosen else e.Some? ==> e.value.effective > now
  {
    if b != [] {
      assert b[0] in b;
      DecidesListed(b, operator, chosen, at);
    }
  }

  // ----- The walk

  /** The choice after a link, over records read in order. */
  ghost predicate Chooses(records: set<Record>, incumbent: Link, chosen: Option<Record>) {
    exists list :: Lists(list, Candidates(records, incumbent)) && chosen == Decide(list, incumbent.operator, None, None)
  }

  /** The choice is one, and is in force strictly after the incumbent. */
  lemma ChoiceIsOne(records: set<Record>, incumbent: Link, x: Option<Record>, y: Option<Record>)
    requires Chooses(records, incumbent, x) && Chooses(records, incumbent, y)
    ensures x == y
    ensures x.Some? ==> x.value in records && x.value.effective > incumbent.from
  {
    var a :| Lists(a, Candidates(records, incumbent)) && x == Decide(a, incumbent.operator, None, None);
    var b :| Lists(b, Candidates(records, incumbent)) && y == Decide(b, incumbent.operator, None, None);
    OrderIsOne(a, b);
    DecidesListed(a, incumbent.operator, None, None);
  }

  /** The choice at an index and the choice at a later one. */
  lemma ChoiceLater(admitted: seq<Record>, lag: nat, now: nat, later: nat, incumbent: Link, x: Option<Record>, y: Option<Record>)
    requires now <= later
    requires Chooses(Floored(admitted, lag, now), incumbent, x) && Chooses(Floored(admitted, lag, later), incumbent, y)
    ensures if x.Some? && x.value.effective <= now then y == x else y.Some? ==> y.value.effective > now
  {
    hide Floored, Decide;
    var few, all := Floored(admitted, lag, now), Floored(admitted, lag, later);
    var a :| Lists(a, Candidates(few, incumbent)) && x == Decide(a, incumbent.operator, None, None);
    var b :| Lists(b, Candidates(all, incumbent)) && y == Decide(b, incumbent.operator, None, None);
    FlooredLater(admitted, lag, now, later);
    FlooredDistinct(admitted, lag, later);
    FlooredDistinct(admitted, lag, now);
    var n := Until(b, now);
    forall r: Record
      ensures r in a <==> r in b[..n]
    {
      assert r in a <==> r in b && r.index <= now;
      if r in b && r.index <= now {
        var i :| 0 <= i < |b| && b[i] == r;
        assert i < n;
        assert b[..n][i] == r;
      }
    }
    OrderIsOne(a, b[..n]);
    assert b == a + b[n..];
    forall r: Record | r in b[n..]
      ensures r.index > now && Leads(r, lag)
    {
      assert r in b && r in all;
    }
    LaterKeepsChoice(a, b[n..], lag, now, incumbent.operator, None, None);
  }

  /** How many of ordered records are witnessed by an index. */
  function Until(list: seq<Record>, now: nat): (n: nat)
    requires Ordered(list)
    ensures n <= |list| && (forall i :: 0 <= i < n ==> list[i].index <= now) && (forall i :: n <= i < |list| ==> list[i].index > now)
  {
    if list == [] then 0
    else if list[|list| - 1].index <= now then |list|
    else Until(list[..|list| - 1], now)
  }

  /** The walk's outcome from a chain: each choice in force by `now` a link more, until there is none,
      or it is pending, or it names a link passed before. */
  ghost predicate Walks(records: set<Record>, now: nat, links: seq<Link>, seen: set<Identity>, result: Chain)
    requires links != []
    decreases now - links[|links| - 1].from
  {
    var incumbent := links[|links| - 1];
    exists chosen :: Chooses(records, incumbent, chosen) && WalksOn(records, now, links, seen, incumbent, chosen, result)
  }

  ghost predicate WalksOn(records: set<Record>, now: nat, links: seq<Link>, seen: set<Identity>, incumbent: Link, chosen: Option<Record>, result: Chain)
    requires links != [] && incumbent == links[|links| - 1]
    decreases now - incumbent.from, 0
  {
    if chosen.None? then result == Chain(links, None)
    else
      var next := Link(chosen.value.successor, chosen.value.effective, chosen.value.identity);
      if next.from > now then result == Chain(links, Some(next))
      else if next.link in seen then result == Chain(links, None)
      else next.from > incumbent.from && Walks(records, now, links + [next], seen + {next.link}, result)
  }

  /** The links in force by an index. */
  function InForceBy(links: seq<Link>, now: nat): seq<Link> {
    if links == [] then []
    else InForceBy(links[..|links| - 1], now) + if links[|links| - 1].from <= now then [links[|links| - 1]] else []
  }

  ghost predicate Rising(links: seq<Link>) {
    forall i :: 0 < i < |links| ==> links[i - 1].from < links[i].from
  }

  lemma {:induction false} RisingForce(links: seq<Link>, i: nat, j: nat)
    requires Rising(links) && i < j < |links|
    ensures links[i].from < links[j].from
    decreases j
  {
    if i < j - 1 {
      RisingForce(links, i, j - 1);
    }
  }

  lemma InForceExtends(links: seq<Link>, next: Link, now: nat)
    ensures InForceBy(links + [next], now) == InForceBy(links, now) + if next.from <= now then [next] else []
  {
    assert (links + [next])[..|links|] == links;
  }

  lemma RisingExtends(links: seq<Link>, next: Link)
    requires links != [] && Rising(links) && next.from > links[|links| - 1].from
    ensures Rising(links + [next])
  {
  }

  /** A walk past an index finds no more links in force by it. */
  lemma {:induction false} NoneAdded(records: set<Record>, now: nat, later: nat, links: seq<Link>, seen: set<Identity>, result: Chain)
    requires links != [] && Rising(links) && links[|links| - 1].from > now && Walks(records, later, links, seen, result)
    ensures Rising(result.links) && links <= result.links && InForceBy(result.links, now) == InForceBy(links, now)
    decreases later - links[|links| - 1].from
  {
    hide Chooses;
    var incumbent := links[|links| - 1];
    var chosen :| Chooses(records, incumbent, chosen) && WalksOn(records, later, links, seen, incumbent, chosen, result);
    if chosen.Some? {
      var next := Link(chosen.value.successor, chosen.value.effective, chosen.value.identity);
      if next.from <= later && next.link !in seen {
        RisingExtends(links, next);
        InForceExtends(links, next, now);
        NoneAdded(records, now, later, links + [next], seen + {next.link}, result);
      }
    }
  }

  /** One walk at an index and one at a later: the same links in force by the index. */
  lemma {:induction false} WalksAgree(admitted: seq<Record>, lag: nat, now: nat, later: nat, links: seq<Link>, seen: set<Identity>, x: Chain, y: Chain)
    requires now <= later && links != [] && Rising(links) && InForceBy(links, now) == links && links[|links| - 1].from <= now
    requires Walks(Floored(admitted, lag, now), now, links, seen, x) && Walks(Floored(admitted, lag, later), later, links, seen, y)
    ensures Rising(x.links) && Rising(y.links) && InForceBy(y.links, now) == x.links && x.links != [] && y.links != []
    decreases now - links[|links| - 1].from
  {
    hide Chooses, Floored, InForceBy, Rising;
    var incumbent := links[|links| - 1];
    var few, all := Floored(admitted, lag, now), Floored(admitted, lag, later);
    var c :| Chooses(few, incumbent, c) && WalksOn(few, now, links, seen, incumbent, c, x);
    var d :| Chooses(all, incumbent, d) && WalksOn(all, later, links, seen, incumbent, d, y);
    ChoiceLater(admitted, lag, now, later, incumbent, c, d);
    ChoiceIsOne(all, incumbent, d, d);
    if d.Some? {
      var next := Link(d.value.successor, d.value.effective, d.value.identity);
      InForceExtends(links, next, now);
      RisingExtends(links, next);
      if next.from <= later && next.link !in seen {
        if next.from <= now {
          assert c == d;
          WalksAgree(admitted, lag, now, later, links + [next], seen + {next.link}, x, y);
        } else {
          NoneAdded(all, now, later, links + [next], seen + {next.link}, y);
        }
      }
    }
  }

  /** The genesis link: the operator the terms name, in force from zero. */
  function Genesis(backing: Identity, original: Key): Link {
    Link(original, 0, backing)
  }

  ghost predicate ReadsAs(admitted: seq<Record>, lag: nat, now: nat, backing: Identity, original: Key, result: Chain) {
    Walks(Floored(admitted, lag, now), now, [Genesis(backing, original)], {backing}, result)
  }

  /** Later reading never rewrites the past: of the chain read later, from whichever answers, the links in
      force by an index are the chain read at that index. */
  lemma {:induction false} PastStands(admitted: seq<Record>, since: seq<Record>, lag: nat, now: nat, later: nat, backing: Identity,
                                      original: Key, x: Chain, y: Chain)
    requires now <= later && Alike(admitted, since, now)
    requires ReadsAs(admitted, lag, now, backing, original, x) && ReadsAs(since, lag, later, backing, original, y)
    ensures Rising(x.links) && Rising(y.links) && InForceBy(y.links, now) == x.links && x.links != [] && y.links != []
    ensures forall at :: at <= now ==> InForceAt(y.links, at) == InForceAt(x.links, at)
  {
    hide FirstOf, Walks;
    AlikeFirst(admitted, since, now);
    var genesis := [Genesis(backing, original)];
    assert genesis[..0] == [];
    assert InForceBy(genesis, now) == InForceBy(genesis[..0], now) + genesis == genesis;
    WalksAgree(since, lag, now, later, genesis, {backing}, x, y);
    forall at | at <= now
      ensures InForceAt(y.links, at) == InForceAt(x.links, at)
    {
      InForceEarlier(y.links, now, at);
    }
  }

  /** `linkInForce`: of the links in force by an index, the last. */
  function InForceAt(links: seq<Link>, at: int): Link
    requires links != []
  {
    if |links| == 1 then links[0]
    else if links[|links| - 1].from <= at then links[|links| - 1]
    else InForceAt(links[..|links| - 1], at)
  }

  lemma {:induction false} InForceEarlier(links: seq<Link>, now: nat, at: int)
    requires links != [] && Rising(links) && InForceBy(links, now) != [] && at <= now
    ensures InForceAt(links, at) == InForceAt(InForceBy(links, now), at)
  {
    var n := |links| - 1;
    if n == 0 {
      assert links[..0] == [];
      assert InForceBy(links, now) == links;
    } else if links[n].from <= now {
      AllInForce(links, now);
    } else {
      assert InForceBy(links, now) == InForceBy(links[..n], now) + [] == InForceBy(links[..n], now);
      assert InForceAt(links, at) == InForceAt(links[..n], at);
      InForceEarlier(links[..n], now, at);
    }
  }

  /** What is in force at an index has arrived by it, and no link after it has. */
  lemma {:induction false} InForceIsLast(links: seq<Link>, at: int)
    requires links != [] && links[0].from <= at
    ensures exists k :: 0 <= k < |links| && links[k] == InForceAt(links, at) && links[k].from <= at
                        && forall j :: k < j < |links| ==> links[j].from > at
  {
    var n := |links| - 1;
    if n == 0 || links[n].from <= at {
      assert links[n] == InForceAt(links, at);
    } else {
      InForceIsLast(links[..n], at);
      var k :| 0 <= k < n && links[..n][k] == InForceAt(links[..n], at) && links[..n][k].from <= at && forall j :: k < j < n ==> links[..n][j].from > at;
      assert links[k] == InForceAt(links, at);
      assert forall j :: k < j < n ==> links[..n][j] == links[j];
    }
  }

  /** Where the last link is in force, every link is. */
  lemma {:induction false} AllInForce(links: seq<Link>, now: nat)
    requires links != [] && Rising(links) && links[|links| - 1].from <= now
    ensures InForceBy(links, now) == links
  {
    var n := |links| - 1;
    if n > 0 {
      AllInForce(links[..n], now);
    }
    assert links[..n] + [links[n]] == links;
  }

  // ----- The walk as it runs

  method LinkInForce(links: seq<Link>, at: nat) returns (link: Link)
    requires links != []
    ensures link == InForceAt(links, at)
  {
    link := links[0];
    for i := 0 to |links|
      invariant link == if i == 0 then links[0] else InForceAt(links[..i], at)
    {
      assert links[..i + 1][..i] == links[..i];
      if links[i].from <= at {
        link := links[i];
      }
    }
    assert links[..|links|] == links;
  }

  method ReadFirst(admitted: seq<Record>, now: nat) returns (first: map<Identity, Record>)
    ensures first == FirstOf(admitted, now)
  {
    first := map[];
    for i := 0 to |admitted|
      invariant first == FirstOf(admitted[..i], now)
    {
      assert admitted[..i + 1][..i] == admitted[..i];
      var a := admitted[i];
      if a.index <= now && (a.identity !in first || a.index < first[a.identity].index) {
        first := first[a.identity := a];
      }
    }
    assert admitted[..|admitted|] == admitted;
  }

  lemma InsertOrdered(list: seq<Record>, r: Record, at: nat)
    requires Ordered(list) && at <= |list| && (forall i :: 0 <= i < at ==> Before(list[i], r)) && (forall i :: at <= i < |list| ==> Before(r, list[i]))
    ensures Ordered(list[..at] + [r] + list[at..]) && forall x :: x in list[..at] + [r] + list[at..] <==> x in list || x == r
  {
    var next := list[..at] + [r] + list[at..];
    assert list == list[..at] + list[at..];
    assert forall i :: 0 <= i < at ==> next[i] == list[i];
    assert forall i :: at < i < |next| ==> next[i] == list[i - 1];
  }

  /** The candidates, sorted. */
  method SortCandidates(records: set<Record>, incumbent: Link) returns (list: seq<Record>)
    requires Distinct(records)
    ensures Lists(list, Candidates(records, incumbent))
  {
    var rest := Candidates(records, incumbent);
    list := [];
    while rest != {}
      invariant rest <= Candidates(records, incumbent) && Ordered(list)
      invariant forall r :: r in list <==> r in Candidates(records, incumbent) - rest
      decreases |rest|
    {
      var r :| r in rest;
      var at := 0;
      while at < |list| && Before(list[at], r)
        invariant at <= |list| && forall i :: 0 <= i < at ==> Before(list[i], r)
      {
        at := at + 1;
      }
      forall i | at <= i < |list|
        ensures Before(r, list[i])
      {
        assert list[at] in list && list[i] in list;
        assert list[at] != r && list[at].identity != r.identity;
      }
      InsertOrdered(list, r, at);
      list := list[..at] + [r] + list[at..];
      rest := rest - {r};
    }
  }

  method Choose(records: set<Record>, incumbent: Link) returns (chosen: Option<Record>)
    requires Distinct(records)
    ensures Chooses(records, incumbent, chosen)
  {
    var list := SortCandidates(records, incumbent);
    var at: Option<nat> := None;
    chosen := None;
    var i := 0;
    assert list[0..] == list;
    while i < |list|
      invariant i <= |list|
      invariant Decide(list[i..], incumbent.operator, chosen, at) == Decide(list, incumbent.operator, None, None)
    {
      var candidate := list[i];
      assert list[i..][1..] == list[i + 1..];
      if at == Some(candidate.index) {
        i := i + 1;
        continue;
      }
      if chosen.Some? && candidate.index >= chosen.value.effective {
        return;
      }
      at := Some(candidate.index);
      chosen := if candidate.successor == incumbent.operator then None else Some(candidate);
      i := i + 1;
    }
  }

  /** `replacementChain`. */
  method ReplacementChain(admitted: seq<Record>, lag: nat, now: nat, backing: Identity, original: Key) returns (result: Chain)
    ensures ReadsAs(admitted, lag, now, backing, original, result)
  {
    hide FirstOf, Chooses;
    var first := ReadFirst(admitted, now);
    var floored := set id | id in first && Leads(first[id], lag) :: first[id];
    FlooredDistinct(admitted, lag, now);
    assert floored == Floored(admitted, lag, now);
    var links, seen := [Genesis(backing, original)], {backing};
    while true
      invariant links != []
      invariant forall r: Chain :: Walks(floored, now, links, seen, r) ==> ReadsAs(admitted, lag, now, backing, original, r)
      decreases now - links[|links| - 1].from
    {
      var incumbent := links[|links| - 1];
      var chosen := Choose(floored, incumbent);
      ChoiceIsOne(floored, incumbent, chosen, chosen);
      StepsOn(floored, now, links, seen, incumbent, chosen);
      if chosen.None? {
        return Chain(links, None);
      }
      var next := Link(chosen.value.successor, chosen.value.effective, chosen.value.identity);
      if next.from > now {
        return Chain(links, Some(next));
      }
      if next.link in seen {
        return Chain(links, None);
      }
      links, seen := links + [next], seen + {next.link};
    }
  }

  /** One turn of the walk, from its choice. */
  lemma StepsOn(records: set<Record>, now: nat, links: seq<Link>, seen: set<Identity>, incumbent: Link, chosen: Option<Record>)
    requires links != [] && incumbent == links[|links| - 1] && Chooses(records, incumbent, chosen)
    ensures forall result :: WalksOn(records, now, links, seen, incumbent, chosen, result) ==> Walks(records, now, links, seen, result)
  {
  }
}
