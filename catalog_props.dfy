/**
 * What the catalog routines of main.py guarantee, stated over the traces of
 * the `Catalog` module for every oracle: the order and stopping rule of the
 * lookup chain, when a base or a derived version is created, the shape of
 * the item chain, and the two behaviours that make resolution repeat work
 * (the item structure sent again on the reuse path, and the derivation that
 * recurs for variants holding a `/`).
 */
module CatalogProps {
  import opened Wrappers
  import opened Text
  import opened Names
  import opened Catalog

  // ------------------------------------------------------------ lookup chain

  /**
   * The chain sends the three fixed requests in order, whatever the replies
   * are, and stops after the first reply whose id is not -1; its result is
   * that reply, or the third one. A result of -1 therefore means that all
   * three lookups missed.
   */
  lemma LookupChainShape(o: Oracle, h: seq<Call>, name: string, variant: string, version: Option<string>)
    ensures var t := LookupChain(o, h, name, variant, version);
            var c0 := LookupCall(name, Some(variant), version, false, true);
            var c1 := LookupCall(name, Some(variant), None, false, true);
            var c2 := LookupCall(name, Some(""), None, false, true);
            var r0 := ReadLookup(o(h, c0), LookupCheck(name, Some(variant), version));
            var r1 := ReadLookup(o(h + [c0], c1), LookupCheck(name, Some(variant), None));
            var r2 := ReadLookup(o(h + [c0, c1], c2), LookupCheck(name, Some(""), None));
            (r0.id != -1 ==> t == Trace([c0], r0))
            && (r0.id == -1 && r1.id != -1 ==> t == Trace([c0, c1], r1))
            && (r0.id == -1 && r1.id == -1 ==> t == Trace([c0, c1, c2], r2))
            && (t.value.id == -1 ==> |t.calls| == 3)
  {
    var c0 := LookupCall(name, Some(variant), version, false, true);
    var c1 := LookupCall(name, Some(variant), None, false, true);
    var c2 := LookupCall(name, Some(""), None, false, true);
    assert h + [c0] + [c1] == h + [c0, c1];
    assert [c0] + [c1] == [c0, c1];
    assert [c0] + [c1] + [c2] == [c0, c1, c2];
  }

  /** Every request of the chain is a lookup. */
  lemma LookupChainOnlyLooks(o: Oracle, h: seq<Call>, name: string, variant: string, version: Option<string>)
    ensures forall c :: c in LookupChain(o, h, name, variant, version).calls ==> c.FindComponent?
  {
    LookupChainShape(o, h, name, variant, version);
  }

  // ------------------------------------------------------------------- items

  /** The item creations among some requests, in order. */
  function Creations(cs: seq<Call>): seq<Call>
    decreases |cs|
  {
    if cs == [] then [] else (if cs[0].NewItem? then [cs[0]] else []) + Creations(cs[1..])
  }

  lemma {:induction false} CreationsConcat(a: seq<Call>, b: seq<Call>)
    ensures Creations(a + b) == Creations(a) + Creations(b)
    decreases |a|
  {
    if a == [] {
      assert a + b == b;
    } else {
      var x := if a[0].NewItem? then [a[0]] else [];
      assert (a + b)[0] == a[0];
      assert (a + b)[1..] == a[1..] + b;
      CreationsConcat(a[1..], b);
      assert Creations(a + b) == x + Creations(a[1..] + b);
      assert Creations(a) == x + Creations(a[1..]);
    }
  }

  /** A request of the item structure. */
  predicate ItemRequest(c: Call) {
    c.ResetItems? || c.NewItem? || c.LinkItems?
  }

  lemma {:induction false} ItemCallsAt(compid: int, kind: string, items: seq<Item>, i: nat, k: nat)
    requires i + k < |items|
    ensures ItemCalls(compid, kind, items, i)[k]
            == NewItem(ItemName(items[i + k]), compid, 100 + 100 * (i + k), kind, ItemAttrs(items[i + k]), i + k == 0)
    decreases k
  {
    ItemCallsStep(compid, kind, items, i);
    if k > 0 {
      ItemCallsAt(compid, kind, items, i + 1, k - 1);
    }
  }

  /** Item creations for `compid`. */
  predicate CreatesFor(compid: int, creates: seq<Call>) {
    forall c :: c in creates ==> c.NewItem? && c.compid == compid
  }

  lemma {:induction false} ItemCallsFor(compid: int, kind: string, items: seq<Item>, i: nat)
    requires i <= |items|
    ensures CreatesFor(compid, ItemCalls(compid, kind, items, i))
    decreases |items| - i
  {
    if i < |items| {
      ItemCallsFor(compid, kind, items, i + 1);
    }
  }

  /** The item loop sends the create requests it is given, in order, and creates nothing else. */
  lemma {:induction false} ItemStepsCreates(o: Oracle, h: seq<Call>, compid: int, creates: seq<Call>,
                                            parent: int, data: Option<Reply>)
    ensures Creations(ItemSteps(o, h, compid, creates, parent, data).calls) == Creations(creates)
    decreases |creates|
  {
    if creates != [] {
      var c := creates[0];
      var r := o(h, c);
      var link := Link(compid, parent, r);
      var rest := ItemSteps(o, h + [c] + link, compid, creates[1..], NextParent(parent, r), r).calls;
      ItemStepsCreates(o, h + [c] + link, compid, creates[1..], NextParent(parent, r), r);
      ItemStep(o, h, compid, creates, parent, data, r);
      CreationsConcat([c] + link, rest);
      CreationsConcat([c], link);
    }
  }

  /** Item create requests are all creations. */
  lemma {:induction false} CreationsOfItemCalls(compid: int, kind: string, items: seq<Item>, i: nat)
    requires i <= |items|
    ensures Creations(ItemCalls(compid, kind, items, i)) == ItemCalls(compid, kind, items, i)
    decreases |items| - i
  {
    if i < |items| {
      CreationsOfItemCalls(compid, kind, items, i + 1);
      ItemCallsStep(compid, kind, items, i);
    }
  }

  /** The item loop sends nothing but the create requests it is given and links for `compid`. */
  lemma {:induction false} ItemStepsKinds(o: Oracle, h: seq<Call>, compid: int, creates: seq<Call>,
                                          parent: int, data: Option<Reply>)
    ensures forall c :: c in ItemSteps(o, h, compid, creates, parent, data).calls ==>
              c in creates || (c.LinkItems? && c.compid == compid)
    decreases |creates|
  {
    if creates != [] {
      var c := creates[0];
      var r := o(h, c);
      ItemStepsKinds(o, h + [c] + Link(compid, parent, r), compid, creates[1..], NextParent(parent, r), r);
      ItemStep(o, h, compid, creates, parent, data, r);
      assert forall d :: d in creates[1..] ==> d in creates;
    }
  }

  /**
   * The id the item loop links the next creation from, after the first `j`
   * requests of `cs` sent after history `h`, starting from `p`: the id of
   * the last creation that got a result, or `p` when none did.
   */
  function ParentAt(o: Oracle, h: seq<Call>, cs: seq<Call>, j: nat, p: int): int
    requires j <= |cs|
    decreases j
  {
    if j == 0 then p
    else if cs[j - 1].NewItem? then NextParent(ParentAt(o, h, cs, j - 1, p), o(h + cs[..j - 1], cs[j - 1]))
    else ParentAt(o, h, cs, j - 1, p)
  }

  /**
   * `ParentAt` is the id of the last creation with a result: either no
   * creation before `j` got one and it is `p`, or the creation at some `i`
   * did, none after it did, and it is that creation's id.
   */
  lemma {:induction false} ParentIsLastCreated(o: Oracle, h: seq<Call>, cs: seq<Call>, j: nat, p: int)
    requires j <= |cs|
    ensures (ParentAt(o, h, cs, j, p) == p &&
             forall i :: 0 <= i < j && cs[i].NewItem? ==> !Created(o(h + cs[..i], cs[i])))
            || exists i :: 0 <= i < j && cs[i].NewItem? && Created(o(h + cs[..i], cs[i]))
                           && ParentAt(o, h, cs, j, p) == WorkId(o(h + cs[..i], cs[i]))
                           && forall k :: i < k < j && cs[k].NewItem? ==> !Created(o(h + cs[..k], cs[k]))
    decreases j
  {
    if j > 0 {
      ParentIsLastCreated(o, h, cs, j - 1, p);
    }
  }

  /** `ParentAt` depends on the first `j` requests only. */
  lemma {:induction false} ParentPrefix(o: Oracle, h: seq<Call>, cs: seq<Call>, ds: seq<Call>, j: nat, p: int)
    requires j <= |cs| && j <= |ds| && cs[..j] == ds[..j]
    ensures ParentAt(o, h, cs, j, p) == ParentAt(o, h, ds, j, p)
    decreases j
  {
    if j > 0 {
      assert cs[..j - 1] == cs[..j][..j - 1] == ds[..j][..j - 1] == ds[..j - 1];
      assert cs[j - 1] == cs[..j][j - 1] == ds[..j][j - 1] == ds[j - 1];
      ParentPrefix(o, h, cs, ds, j - 1, p);
    }
  }

  /** Past a prefix `a`, `ParentAt` goes on from where `a` left it. */
  lemma {:induction false} ParentShift(o: Oracle, h: seq<Call>, a: seq<Call>, rest: seq<Call>, n: nat, p: int)
    requires n <= |rest|
    ensures ParentAt(o, h, a + rest, |a| + n, p) == ParentAt(o, h + a, rest, n, ParentAt(o, h, a, |a|, p))
    decreases n
  {
    var cs := a + rest;
    if n == 0 {
      assert cs[..|a|] == a[..|a|];
      ParentPrefix(o, h, cs, a, |a|, p);
    } else {
      ParentShift(o, h, a, rest, n - 1, p);
      assert cs[|a| + n - 1] == rest[n - 1];
      assert cs[..|a| + n - 1] == a + rest[..n - 1];
      assert h + cs[..|a| + n - 1] == (h + a) + rest[..n - 1];
    }
  }

  /** After a creation and the link that may follow it, the loop links from `NextParent`. */
  lemma ParentAfterStep(o: Oracle, h: seq<Call>, compid: int, parent: int, c: Call)
    requires c.NewItem?
    ensures var a := [c] + Link(compid, parent, o(h, c));
            ParentAt(o, h, a, |a|, parent) == NextParent(parent, o(h, c))
  {
    var a := [c] + Link(compid, parent, o(h, c));
    assert a[..0] == [] && h + a[..0] == h;
    assert ParentAt(o, h, a, 1, parent) == NextParent(parent, o(h, c));
  }

  /**
   * The request at `j` of `cs`, sent after history `h` by a loop that
   * started from `p`: a link follows a creation that got a result, starts
   * at the id of the last item created before that creation (a positive
   * one), and ends at the id just created; and a creation is followed by a
   * link exactly when it got a result and that last id is positive.
   */
  predicate LinkExact(o: Oracle, h: seq<Call>, cs: seq<Call>, p: int, j: nat)
    requires j < |cs|
  {
    (cs[j].LinkItems? ==>
       0 < j && cs[j - 1].NewItem? && Created(o(h + cs[..j - 1], cs[j - 1]))
       && cs[j].from == ParentAt(o, h, cs, j - 1, p) && cs[j].from > 0
       && cs[j].to == WorkId(o(h + cs[..j - 1], cs[j - 1])))
    && (cs[j].NewItem? ==>
          ((j + 1 < |cs| && cs[j + 1].LinkItems?) <==> Created(o(h + cs[..j], cs[j])) && ParentAt(o, h, cs, j, p) > 0))
  }

  /** The first request of one loop step, and the link after it. */
  lemma LinkStepHead(o: Oracle, h: seq<Call>, compid: int, parent: int, c: Call, rest: seq<Call>, j: nat)
    requires c.NewItem?
    requires rest != [] ==> rest[0].NewItem?
    requires var link := Link(compid, parent, o(h, c));
             j < 1 + |link| && j < 1 + |link| + |rest|
    ensures LinkExact(o, h, ([c] + Link(compid, parent, o(h, c))) + rest, parent, j)
  {
    var link := Link(compid, parent, o(h, c));
    var cs := ([c] + link) + rest;
    assert cs[0] == c && cs[..0] == [] && h + cs[..0] == h;
    if link != [] {
      assert cs[1] == link[0];
    } else if rest != [] {
      assert cs[1] == rest[0];
    }
  }

  /** A request of the rest of the loop, seen from the start of the step. */
  lemma LinkStepRest(o: Oracle, h: seq<Call>, compid: int, parent: int, c: Call, rest: seq<Call>, j: nat)
    requires c.NewItem?
    requires rest != [] ==> rest[0].NewItem?
    requires var link := Link(compid, parent, o(h, c));
             1 + |link| <= j < 1 + |link| + |rest|
             && LinkExact(o, h + [c] + link, rest, NextParent(parent, o(h, c)), j - 1 - |link|)
    ensures LinkExact(o, h, ([c] + Link(compid, parent, o(h, c))) + rest, parent, j)
  {
    var link := Link(compid, parent, o(h, c));
    var a := [c] + link;
    var cs := a + rest;
    var n := j - 1 - |link|;
    var np := NextParent(parent, o(h, c));
    assert |a| == 1 + |link| && j == |a| + n;
    assert h + [c] + link == h + a;
    ParentAfterStep(o, h, compid, parent, c);
    assert cs[j] == rest[n];
    assert cs[..j] == a + rest[..n];
    assert h + cs[..j] == (h + a) + rest[..n];
    ParentShift(o, h, a, rest, n, parent);
    assert ParentAt(o, h, cs, j, parent) == ParentAt(o, h + a, rest, n, np);
    if j + 1 < |cs| {
      assert cs[j + 1] == rest[n + 1];
    }
    if n > 0 {
      assert cs[j - 1] == rest[n - 1];
      assert cs[..j - 1] == a + rest[..n - 1];
      assert h + cs[..j - 1] == (h + a) + rest[..n - 1];
      ParentShift(o, h, a, rest, n - 1, parent);
    }
  }

  /** The link property of the item loop at one position `j`. */
  lemma {:induction false} LinkAt(o: Oracle, h: seq<Call>, compid: int, creates: seq<Call>, parent: int,
                                  data: Option<Reply>, j: nat)
    requires CreatesFor(compid, creates)
    requires j < |ItemSteps(o, h, compid, creates, parent, data).calls|
    ensures LinkExact(o, h, ItemSteps(o, h, compid, creates, parent, data).calls, parent, j)
    decreases |creates|
  {
    ItemStepsFirst(o, h, compid, creates, parent, data);
    var c := creates[0];
    var r := o(h, c);
    var link := Link(compid, parent, r);
    var h2 := h + [c] + link;
    var rest := ItemSteps(o, h2, compid, creates[1..], NextParent(parent, r), r).calls;
    ItemStep(o, h, compid, creates, parent, data, r);
    assert forall d :: d in creates[1..] ==> d in creates;
    ItemStepsFirst(o, h2, compid, creates[1..], NextParent(parent, r), r);
    if j >= 1 + |link| {
      LinkAt(o, h2, compid, creates[1..], NextParent(parent, r), r, j - 1 - |link|);
      LinkStepRest(o, h, compid, parent, c, rest, j);
    } else {
      LinkStepHead(o, h, compid, parent, c, rest, j);
    }
  }

  /** The item loop sends something exactly when it has a request to send, and then that one first. */
  lemma ItemStepsFirst(o: Oracle, h: seq<Call>, compid: int, creates: seq<Call>, parent: int, data: Option<Reply>)
    ensures var cs := ItemSteps(o, h, compid, creates, parent, data).calls;
            (cs != [] <==> creates != []) && (cs != [] ==> cs[0] == creates[0])
  {
  }

  /** new_component_item sends nothing but item requests for `compid`. */
  lemma ItemsOnlyItems(o: Oracle, h: seq<Call>, compid: int, kind: string, items: Option<seq<Item>>)
    ensures forall c :: c in Items(o, h, compid, kind, items).calls ==> ItemRequest(c) && c.compid == compid
  {
    if !IsDocker(kind) && items.Some? {
      var creates := ItemCalls(compid, kind, items.value, 0);
      ItemCallsFor(compid, kind, items.value, 0);
      ItemStepsKinds(o, h, compid, creates, -1, None);
    }
  }

  /**
   * new_component_item: for a docker kind or no item list, the one request
   * that clears the items; otherwise one creation per item, in order (see
   * `ItemCallsAt`); each creation that got a result followed by a link
   * from the last item created before it, when that item's id is positive
   * (`LinkExact`); and nothing but item requests for `compid`.
   */
  lemma ItemsShape(o: Oracle, h: seq<Call>, compid: int, kind: string, items: Option<seq<Item>>)
    ensures var cs := Items(o, h, compid, kind, items).calls;
            (IsDocker(kind) || items.None? ==> cs == [ResetItems(compid, kind)])
            && (!IsDocker(kind) && items.Some? ==>
                  Creations(cs) == ItemCalls(compid, kind, items.value, 0)
                  && forall j :: 0 <= j < |cs| ==> LinkExact(o, h, cs, -1, j))
            && (forall c :: c in cs ==> ItemRequest(c) && c.compid == compid)
  {
    if !IsDocker(kind) && items.Some? {
      var creates := ItemCalls(compid, kind, items.value, 0);
      var cs := ItemSteps(o, h, compid, creates, -1, None).calls;
      ItemCallsFor(compid, kind, items.value, 0);
      CreationsOfItemCalls(compid, kind, items.value, 0);
      ItemStepsCreates(o, h, compid, creates, -1, None);
      ItemsOnlyItems(o, h, compid, kind, items);
      forall j | 0 <= j < |cs| ensures LinkExact(o, h, cs, -1, j) {
        LinkAt(o, h, compid, creates, -1, None, j);
      }
    }
  }

  // ---------------------------------------------------------------- creation

  /** Whether some request creates a base version. */
  predicate SendsBase(cs: seq<Call>) {
    exists c :: c in cs && c.NewBaseVersion?
  }

  /** Whether some request creates a version of any kind. */
  predicate Creates(cs: seq<Call>) {
    exists c :: c in cs && (c.NewBaseVersion? || c.NewVersionOf?)
  }

  /** A derived version: its request, its rename and its items, no base version. */
  lemma DeriveShape(o: Oracle, h: seq<Call>, compname: string, variant: Option<string>, version: Option<string>,
                    parent: int, kind: string, items: Option<seq<Item>>)
    ensures var cs := DeriveTrace(o, h, compname, variant, version, parent, kind, items).calls;
            |cs| >= 2 && cs[0] == NewVersionOf(parent) && cs[1].Rename?
            && forall c :: c in cs[1..] ==> !c.NewBaseVersion? && !c.NewVersionOf?
  {
    var c := NewVersionOf(parent);
    var id := NewId(o(h, c));
    var rn := RenameTrace(o, h + [c], compname, variant, version, id);
    var it := Items(o, h + [c] + rn.calls, id, kind, items);
    ItemsOnlyItems(o, h + [c] + rn.calls, id, kind, items);
    assert ([c] + rn.calls + it.calls)[1..] == rn.calls + it.calls;
  }

  /** A base version: its request first, and no other version request. */
  lemma BaseShape(o: Oracle, h: seq<Call>, compname: string, variant: Option<string>, kind: string,
                  items: Option<seq<Item>>)
    ensures var cs := BaseTrace(o, h, compname, variant, kind, items).calls;
            cs != [] && cs[0] == NewBaseVersion(BaseName(compname, variant))
            && forall c :: c in cs[1..] ==> !c.NewBaseVersion? && !c.NewVersionOf?
  {
    var c := NewBaseVersion(BaseName(compname, variant));
    var it := Items(o, h + [c], NewId(o(h, c)), kind, items);
    ItemsOnlyItems(o, h + [c], NewId(o(h, c)), kind, items);
    assert ([c] + it.calls)[1..] == it.calls;
  }

  /** Without a hit, new_component_version creates a base component, and nothing else. */
  lemma FreshShape(o: Oracle, h: seq<Call>, t: Target, kind: string)
    ensures var cs := FreshTrace(o, h, t, kind).calls;
            cs != [] && cs[0].NewBaseVersion? && forall c :: c in cs[1..] ==> !c.NewBaseVersion? && !c.NewVersionOf?
  {
    var (v, ver) := Promote(CleanName(Some(t.variant)), CleanName(Some(t.version.GetOr(""))));
    if IsDocker(kind) {
      BaseShape(o, h, t.name, v, "docker", None);
    } else {
      BaseShape(o, h, t.name, v, "file", None);
    }
  }

  /** After a hit: a derived version unless the hit carries the check name, then nothing. */
  lemma KeepOrDeriveShape(o: Oracle, h: seq<Call>, t: Target, found: Hit, kind: string, items: Option<seq<Item>>)
    requires found.id >= 0
    ensures var cs := KeepOrDerive(o, h, t, found, kind, items).calls;
            if found.name == "" || found.name != TargetCheck(t) then
              |cs| >= 2 && cs[0] == NewVersionOf(found.id)
              && forall c :: c in cs[1..] ==> !c.NewBaseVersion? && !c.NewVersionOf?
            else cs == []
  {
    if found.name == "" || found.name != TargetCheck(t) {
      var (v, vr) := Promote(CleanName(Some(t.variant)), CleanName(Some(t.version.GetOr(""))));
      if IsDocker(kind) {
        DeriveShape(o, h, t.name, v, vr, found.id, "docker", None);
      } else {
        DeriveShape(o, h, t.name, v, vr, found.id, "file", items);
      }
    }
  }

  /** The item structure sent again holds only item requests. */
  lemma ItemsAgainShape(o: Oracle, h: seq<Call>, compid: int, kind: string, items: Option<seq<Item>>)
    ensures forall c :: c in ItemsAgain(o, h, compid, kind, items).calls ==> ItemRequest(c) && c.compid == compid
  {
    if compid > 0 {
      if IsDocker(kind) {
        ItemsOnlyItems(o, h, compid, "docker", None);
      } else {
        ItemsOnlyItems(o, h, compid, "file", items);
      }
    }
  }

  /** After a hit, without `autoInc`: at most one derived version, first, and never a base version. */
  lemma RefreshShape(o: Oracle, h: seq<Call>, t: Target, found: Hit, kind: string, items: Option<seq<Item>>)
    requires found.id >= 0
    ensures var cs := RefreshTrace(o, h, t, found, kind, items).calls;
            (forall c :: c in cs ==> !c.NewBaseVersion?)
            && (Creates(cs) <==> found.name == "" || found.name != TargetCheck(t))
            && (Creates(cs) ==> cs[0] == NewVersionOf(found.id))
  {
    var cr := KeepOrDerive(o, h, t, found, kind, items);
    var it := ItemsAgain(o, h + cr.calls, cr.value, kind, items);
    KeepOrDeriveShape(o, h, t, found, kind, items);
    ItemsAgainShape(o, h + cr.calls, cr.value, kind, items);
    DeriveThenItems(cr.calls, it.calls, found.id, found.name == "" || found.name != TargetCheck(t));
  }

  /** A derived version's requests, if any, followed by item requests. */
  lemma DeriveThenItems(derived: seq<Call>, again: seq<Call>, parent: int, derive: bool)
    requires derive ==> |derived| >= 2 && derived[0] == NewVersionOf(parent)
                        && forall c :: c in derived[1..] ==> !c.NewBaseVersion? && !c.NewVersionOf?
    requires !derive ==> derived == []
    requires forall c :: c in again ==> ItemRequest(c)
    ensures var cs := derived + again;
            (forall c :: c in cs ==> !c.NewBaseVersion?)
            && (Creates(cs) <==> derive)
            && (derive ==> cs[0] == NewVersionOf(parent))
  {
    var cs := derived + again;
    if derive {
      assert cs[0] == derived[0] && cs[0] in cs;
      forall c | c in cs ensures !c.NewBaseVersion? {
        if c in derived && c != derived[0] {
          assert c in derived[1..] by {
            assert derived == [derived[0]] + derived[1..];
          }
        }
      }
    } else {
      assert cs == again;
    }
  }

  /**
   * What new_component_version does after its lookups: a base version
   * exactly when the hit's id is negative, then as its first request;
   * nothing at all with `autoInc` and a hit.
   */
  lemma DecideShape(o: Oracle, h: seq<Call>, t: Target, found: Hit, kind: string, items: Option<seq<Item>>,
                    autoInc: Option<bool>)
    ensures var d := DecideTrace(o, h, t, found, kind, items, autoInc);
            (SendsBase(d.calls) <==> found.id < 0)
            && (found.id < 0 ==> d.calls[0].NewBaseVersion?)
            && (found.id >= 0 && autoInc.Some? ==> d == Trace([], found.id))
  {
    if found.id < 0 {
      var cs := FreshTrace(o, h, t, kind).calls;
      FreshShape(o, h, t, kind);
      assert cs[0] in cs;
    } else if autoInc.None? {
      RefreshShape(o, h, t, found, kind, items);
    }
  }

  /** The hit of new_component_version's lookup chain. */
  function Found(o: Oracle, h: seq<Call>, compname: string, variant: string, version: Option<string>): Trace<Hit> {
    var t := Normalise(compname, variant, version);
    LookupChain(o, h, t.name, t.variant, t.version)
  }

  /** new_component_version is its lookup chain followed by the decision on the hit. */
  lemma ResolveSplit(o: Oracle, h: seq<Call>, compname: string, variant: string, version: Option<string>,
                     kind: string, items: Option<seq<Item>>, autoInc: Option<bool>)
    ensures var look := Found(o, h, compname, variant, version);
            var d := DecideTrace(o, h + look.calls, Normalise(compname, variant, version), look.value, kind, items, autoInc);
            var r := ResolveTrace(o, h, compname, variant, version, kind, items, autoInc);
            r.calls == look.calls + d.calls && r.value == d.value
            && (forall c :: c in look.calls ==> c.FindComponent?)
  {
    var t := Normalise(compname, variant, version);
    LookupChainOnlyLooks(o, h, t.name, t.variant, t.version);
  }

  /**
   * new_component_version creates a base version exactly when its lookup
   * chain ends with a negative id, and then as its first request after the
   * lookups.
   */
  lemma BaseExactlyWhenNotFound(o: Oracle, h: seq<Call>, compname: string, variant: string, version: Option<string>,
                                kind: string, items: Option<seq<Item>>, autoInc: Option<bool>)
    ensures var look := Found(o, h, compname, variant, version);
            var r := ResolveTrace(o, h, compname, variant, version, kind, items, autoInc);
            (SendsBase(r.calls) <==> look.value.id < 0)
            && (look.value.id < 0 ==> r.calls[|look.calls|].NewBaseVersion?)
  {
    var look := Found(o, h, compname, variant, version);
    var t := Normalise(compname, variant, version);
    var d := DecideTrace(o, h + look.calls, t, look.value, kind, items, autoInc);
    ResolveSplit(o, h, compname, variant, version, kind, items, autoInc);
    DecideShape(o, h + look.calls, t, look.value, kind, items, autoInc);
    if look.value.id < 0 {
      assert (look.calls + d.calls)[|look.calls|] == d.calls[0];
    }
  }

  /**
   * With `autoInc` given and a hit, new_component_version returns the hit's
   * id and sends nothing but the lookups: no version is created.
   */
  lemma AutoIncReusesHit(o: Oracle, h: seq<Call>, compname: string, variant: string, version: Option<string>,
                         kind: string, items: Option<seq<Item>>, autoInc: Option<bool>)
    requires autoInc.Some?
    requires Found(o, h, compname, variant, version).value.id >= 0
    ensures var look := Found(o, h, compname, variant, version);
            var r := ResolveTrace(o, h, compname, variant, version, kind, items, autoInc);
            r.value == look.value.id && r.calls == look.calls
            && (forall c :: c in r.calls ==> c.FindComponent?) && !Creates(r.calls)
  {
    var look := Found(o, h, compname, variant, version);
    var t := Normalise(compname, variant, version);
    ResolveSplit(o, h, compname, variant, version, kind, items, autoInc);
    DecideShape(o, h + look.calls, t, look.value, kind, items, autoInc);
    assert look.calls + [] == look.calls;
  }

  /**
   * When the hit already carries the check name, nothing is created, yet the
   * item structure of the hit is sent again: for a docker kind, one clearing
   * request.
   */
  lemma ReuseStillSendsItems(o: Oracle, h: seq<Call>, t: Target, found: Hit, kind: string, items: Option<seq<Item>>)
    requires found.id > 0 && found.name != "" && found.name == TargetCheck(t)
    ensures var r := RefreshTrace(o, h, t, found, kind, items);
            r.value == found.id && !Creates(r.calls)
            && (IsDocker(kind) ==> r.calls == [ResetItems(found.id, "docker")])
            && (!IsDocker(kind) ==> r.calls == Items(o, h, found.id, "file", items).calls)
  {
    RefreshShape(o, h, t, found, kind, items);
    var cr := KeepOrDerive(o, h, t, found, kind, items);
    assert cr == Trace([], found.id);
    assert h + cr.calls == h;
    var it := ItemsAgain(o, h, found.id, kind, items);
    assert RefreshTrace(o, h, t, found, kind, items).calls == [] + it.calls;
    if IsDocker(kind) {
      assert IsDocker("docker") by {
        assert Lower("docker") == "docker";
      }
    }
  }

  /**
   * On the derive path of a docker component with a positive new id, the
   * items are cleared twice: once by new_docker_component and once more by
   * new_component_version.
   */
  lemma DockerDeriveClearsTwice(o: Oracle, h: seq<Call>, t: Target, found: Hit, kind: string, items: Option<seq<Item>>)
    requires IsDocker(kind) && found.id >= 0
    requires found.name == "" || found.name != TargetCheck(t)
    ensures var r := RefreshTrace(o, h, t, found, kind, items);
            r.value > 0 ==>
              |r.calls| == 4 && r.calls[0] == NewVersionOf(found.id) && r.calls[1].Rename?
              && r.calls[2] == ResetItems(r.value, "docker") && r.calls[3] == ResetItems(r.value, "docker")
  {
    assert IsDocker("docker") by {
      assert Lower("docker") == "docker";
    }
    var cr := KeepOrDerive(o, h, t, found, kind, items);
    var (v, vr) := Promote(CleanName(Some(t.variant)), CleanName(Some(t.version.GetOr(""))));
    assert cr == DeriveTrace(o, h, t.name, v, vr, found.id, "docker", None);
  }

  // ---------------------------------------------------- variants with a '/'

  /** A name cleaned twice holds no `.`: the first pass turned every `/` into `.`, the second every `.` into `_`. */
  lemma CleanTwiceNoDot(s: string)
    ensures '.' !in CleanChars(CleanChars(s))
  {
    CleanCharsShape(s);
    CleanCharsShape(CleanChars(s));
    assert '/' in Removed;
    CountZero(CleanChars(s), '/');
    CountZero(CleanChars(CleanChars(s)), '.');
  }

  lemma QualifyNoDot(base: string, variant: Option<string>, version: Option<string>)
    requires '.' !in base
    requires variant.Some? ==> '.' !in variant.value
    requires version.Some? ==> '.' !in version.value
    ensures '.' !in Qualify(base, variant, version)
  {
  }

  /**
   * The name update_name gives a derived version never holds a `.`: the
   * base is the last dot-segment and the qualifiers have been cleaned
   * twice on the way.
   */
  lemma DerivedNameHasNoDot(o: Oracle, h: seq<Call>, compname: string, variant: string, version: string, parent: int,
                            kind: string, items: Option<seq<Item>>)
    requires parent >= 0
    ensures var cs := CreateTrace(o, h, compname, variant, version, parent, kind, items).calls;
            cs[1].Rename? && '.' !in cs[1].newName
  {
    var (v, ver) := Promote(CleanName(Some(variant)), CleanName(Some(version)));
    DeriveShape(o, h, compname, v, ver, parent, kind, items);
    var (v2, ver2) := Promote(CleanName(v), CleanName(ver));
    CleanTwiceNoDot(variant);
    CleanTwiceNoDot(version);
    QualifyNoDot(RenameBase(compname), v2, ver2);
  }

  /** A variant keeps its characters in the qualified name. */
  lemma QualifyKeeps(base: string, variant: Option<string>, version: Option<string>, ch: char)
    requires !Blank(variant) && ch in variant.value
    ensures ch in Qualify(base, variant, version)
  {
    var q := Qualify(base, variant, version);
    var k :| 0 <= k < |variant.value| && variant.value[k] == ch;
    assert q[|base| + 1 + k] == ch;
  }

  /** For a variant holding a `/`, the check name of new_component_version holds a `.`. */
  lemma SlashVariantCheckHasDot(compname: string, variant: string, version: Option<string>)
    requires '/' in variant
    ensures '.' in TargetCheck(Normalise(compname, variant, version))
  {
    var t := Normalise(compname, variant, version);
    var c := CleanChars(variant);
    CleanCharsShape(variant);
    CountZero(variant, '/');
    CountZero(c, '.');
    var i :| 0 <= i < |c| && c[i] == '.';
    assert !Blank(Some(c));
    assert t.variant == TrimRight(c, IsSemicolon);
    assert i < |t.variant| && t.variant[i] == '.';
    QualifyKeeps(ShortName(t.name), Some(t.variant), t.version, '.');
  }

  /**
   * resolve-or-create is not idempotent for a variant holding a `/`: when the
   * lookup chain hits a component whose name has no `.` (as every name
   * update_name gives, by `DerivedNameHasNoDot`), new_component_version
   * derives yet another version from it.
   */
  lemma SlashVariantAlwaysDerives(o: Oracle, h: seq<Call>, compname: string, variant: string, version: Option<string>,
                                  kind: string, items: Option<seq<Item>>)
    requires '/' in variant
    requires var look := Found(o, h, compname, variant, version);
             look.value.id >= 0 && '.' !in look.value.name
    ensures var look := Found(o, h, compname, variant, version);
            var r := ResolveTrace(o, h, compname, variant, version, kind, items, None);
            |r.calls| > |look.calls| && r.calls[|look.calls|] == NewVersionOf(look.value.id)
  {
    var t := Normalise(compname, variant, version);
    var look := Found(o, h, compname, variant, version);
    var d := DecideTrace(o, h + look.calls, t, look.value, kind, items, None);
    SlashVariantCheckHasDot(compname, variant, version);
    ResolveSplit(o, h, compname, variant, version, kind, items, None);
    RefreshShape(o, h + look.calls, t, look.value, kind, items);
    assert d.calls[0] in d.calls;
    assert (look.calls + d.calls)[|look.calls|] == d.calls[0];
  }

  // -------------------------------------------------------------- attributes

  /** update_component_attrs posts the attributes only to a component its lookup found, and then to that one. */
  lemma AttrsPostedOnlyToHit(o: Oracle, h: seq<Call>, compname: string, variant: Option<string>,
                             version: Option<string>, attrs: map<string, string>)
    ensures var l := Lookup(o, h, compname, variant, version, true, false);
            var r := AttrsTrace(o, h, compname, variant, version, attrs);
            r.calls[0] == LookupCall(compname, variant, version, true, false)
            && (l.value.id < 0 <==> r.value == NoComponent)
            && (l.value.id < 0 ==> |r.calls| == 1)
            && (l.value.id >= 0 ==> |r.calls| == 2 && r.calls[1] == SetVars(l.value.id, attrs)
                                    && (r.value.Set? ==> r.value.id == l.value.id))
  {
  }
}
