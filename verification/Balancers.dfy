/** The tag namespace of load-balancing groups: a balancer's prefix selector reaches its own members only. */
module Balancers {
  import opened Wrappers
  import opened Lists
  import opened Text
  import opened Entities
  import Groups
  import Outbounds
  import opened Compiler
  import opened Operations
  import opened Integrity

  function ItemTag(x: OutboundItem): string { x.tag }

  // ---------- reserved prefixes ----------

  lemma {:induction false} NothingToTrim(s: string)
    requires forall i | 0 <= i < |s| :: !IsBlank(s[i])
    ensures Trim(s) == s
  {
  }

  lemma LowerPrefix(s: string, p: string)
    requires Lower(p) == p
    ensures HasPrefix(s, p) ==> HasPrefix(Lower(s), p)
  {
    if HasPrefix(s, p) {
      assert Lower(s[..|p|]) == Lower(s)[..|p|];
    }
  }

  /** No stored outbound tag begins like an alias: the case-insensitive check of the validator covers it. */
  lemma TagIsNoAlias(tag: string)
    requires TagOk(tag)
    ensures !HasPrefix(tag, "gbm-")
  {
    NothingToTrim(tag);
    LowerPrefix(tag, "gbm-");
  }

  /** A tag is reserved if and only if, whatever its case, it begins like an alias or like a balancer tag. */
  lemma ReservedExact(tag: string)
    requires Outbounds.ValidTag(tag)
    ensures TagOk(tag) <==> !HasPrefix(Lower(tag), "gbm-") && !HasPrefix(Lower(tag), "gb-bal-")
  {
    NothingToTrim(tag);
  }

  lemma TagIsNoBalancer(tag: string)
    requires TagOk(tag)
    ensures !HasPrefix(tag, "gb-bal-")
  {
    ReservedExact(tag);
    LowerPrefix(tag, "gb-bal-");
  }

  lemma AliasParts(gid: string, oid: string)
    ensures AliasTag(gid, oid) == "gbm-" + gid + "-" + oid
    ensures AliasTag(gid, oid)[..4] == "gbm-"
    ensures AliasTag(gid, oid)[4..4 + |gid|] == gid
    ensures AliasTag(gid, oid)[5 + |gid|..] == oid
  {
  }

  /** Group identifiers have one length, so the dash after it ends the identifier. */
  lemma AliasDecodes(g: string, h: string, o: string)
    requires HexId(g) && HexId(h)
    ensures HasPrefix(AliasTag(h, o), MemberPrefix(g)) <==> g == h
  {
    AliasParts(h, o);
    AliasParts(g, "");
    if HasPrefix(AliasTag(h, o), MemberPrefix(g)) {
      assert MemberPrefix(g) == AliasTag(h, o)[..29];
      assert MemberPrefix(g)[4..28] == g;
    }
  }

  // ---------- where emitted tags come from ----------

  lemma {:induction false} OutboundItemsFrom(xs: seq<Outbound>)
    ensures forall it | it in OutboundItems(xs) :: exists x :: x in xs && x.enabled && it == ItemOf(x)
    ensures forall x | x in xs && x.enabled :: ItemOf(x) in OutboundItems(xs)
  {
    if xs != [] {
      OutboundItemsFrom(xs[1..]);
      assert xs == [xs[0]] + xs[1..];
      forall it | it in OutboundItems(xs) ensures exists x :: x in xs && x.enabled && it == ItemOf(x) {
        if it in OutboundItems(xs[1..]) {
          var x :| x in xs[1..] && x.enabled && it == ItemOf(x);
          assert x in xs;
        }
      }
    }
  }

  lemma {:induction false} MemberAliasesFrom(st: State, n: string, gid: string, ms: seq<Member>,
                                             items: map<string, OutboundItem>)
    ensures forall it | it in MemberAliases(st, n, gid, ms, items) ::
              exists m :: m in ms && it.tag == AliasTag(gid, m.outboundId)
    ensures forall m | m in ms && Available(st.outbounds, n, m.outboundId) &&
              OutboundOf(st, m.outboundId).value.tag in items ::
              items[OutboundOf(st, m.outboundId).value.tag].(tag := AliasTag(gid, m.outboundId)) in
              MemberAliases(st, n, gid, ms, items)
  {
    if ms != [] {
      MemberAliasesFrom(st, n, gid, ms[1..], items);
      assert ms == [ms[0]] + ms[1..];
      forall it | it in MemberAliases(st, n, gid, ms, items)
        ensures exists m :: m in ms && it.tag == AliasTag(gid, m.outboundId)
      {
        if it in MemberAliases(st, n, gid, ms[1..], items) {
          var m :| m in ms[1..] && it.tag == AliasTag(gid, m.outboundId);
          assert m in ms;
        } else {
          assert it.tag == AliasTag(gid, ms[0].outboundId);
        }
      }
    }
  }

  lemma {:induction false} AliasesFrom(st: State, n: string, gs: seq<Group>, items: map<string, OutboundItem>)
    ensures forall it | it in Aliases(st, n, gs, items) ::
              exists g, m :: g in gs && g.enabled && m in g.members && it.tag == AliasTag(g.id, m.outboundId)
    ensures forall g, it | g in gs && g.enabled && it in MemberAliases(st, n, g.id, g.members, items) ::
              it in Aliases(st, n, gs, items)
  {
    if gs != [] {
      AliasesFrom(st, n, gs[1..], items);
      assert gs == [gs[0]] + gs[1..];
      MemberAliasesFrom(st, n, gs[0].id, gs[0].members, items);
      forall it | it in Aliases(st, n, gs, items)
        ensures exists g, m :: g in gs && g.enabled && m in g.members && it.tag == AliasTag(g.id, m.outboundId)
      {
        if it in Aliases(st, n, gs[1..], items) {
          var g, m :| g in gs[1..] && g.enabled && m in g.members && it.tag == AliasTag(g.id, m.outboundId);
          assert g in gs;
        } else {
          var m :| m in gs[0].members && it.tag == AliasTag(gs[0].id, m.outboundId);
        }
      }
    }
  }

  lemma BaseTagIsNoAlias(st: State, n: string, it: OutboundItem)
    requires Inv(st) && it in BaseItems(st, n)
    ensures !HasPrefix(it.tag, "gbm-")
  {
    var xs := Filter(st.outbounds, OutboundOn(n));
    OutboundItemsFrom(xs);
    FilterMembers(st.outbounds, OutboundOn(n));
    if it in OutboundItems(xs) {
      var x :| x in xs && x.enabled && it == ItemOf(x);
      assert OutboundOk(x, NodeIds(st));
      TagIsNoAlias(x.tag);
    } else {
      assert it.tag[0] == 'd' || it.tag[0] == 'b';
      assert "gbm-"[0] == 'g';
    }
  }

  // ---------- tags are distinct ----------

  lemma UniqueConcat<T>(a: seq<T>, b: seq<T>, key: T -> string)
    requires Unique(a, key) && Unique(b, key)
    requires forall x, y | x in a && y in b :: key(x) != key(y)
    ensures Unique(a + b, key)
  {
    var c := a + b;
    forall i, j | 0 <= i < j < |c| ensures key(c[i]) != key(c[j]) {
      if i < |a| <= j {
        assert c[i] in a && c[j] in b;
      }
    }
  }

  lemma {:induction false} OutboundTagsUnique(xs: seq<Outbound>)
    requires Unique(xs, OutboundKey)
    requires forall a, b | a in xs && b in xs && a.id != b.id :: a.tag != b.tag
    ensures Unique(OutboundItems(xs), ItemTag)
  {
    if xs != [] {
      UniqueTail(xs, OutboundKey);
      assert xs == [xs[0]] + xs[1..];
      OutboundTagsUnique(xs[1..]);
      OutboundItemsFrom(xs[1..]);
      var head := if xs[0].enabled then [ItemOf(xs[0])] else [];
      UniqueConcat(head, OutboundItems(xs[1..]), ItemTag);
    }
  }

  lemma {:induction false} MemberTagsUnique(st: State, n: string, gid: string, ms: seq<Member>,
                                            items: map<string, OutboundItem>)
    requires Unique(ms, MemberKey)
    ensures Unique(MemberAliases(st, n, gid, ms, items), ItemTag)
  {
    if ms != [] {
      UniqueTail(ms, MemberKey);
      MemberTagsUnique(st, n, gid, ms[1..], items);
      MemberAliasesFrom(st, n, gid, ms[1..], items);
      var rest := MemberAliases(st, n, gid, ms[1..], items);
      var o := LocalOutbound(st, n, ms[0].outboundId);
      if o.Some? && o.value.enabled && o.value.tag in items {
        var it := items[o.value.tag].(tag := AliasTag(gid, o.value.id));
        forall y | y in rest ensures it.tag != y.tag {
          var m :| m in ms[1..] && y.tag == AliasTag(gid, m.outboundId);
          AliasParts(gid, m.outboundId);
          AliasParts(gid, ms[0].outboundId);
        }
        UniqueConcat([it], rest, ItemTag);
      }
    }
  }

  lemma {:induction false} AliasTagsUnique(st: State, n: string, gs: seq<Group>, items: map<string, OutboundItem>)
    requires Unique(gs, GroupKey) && forall g | g in gs :: HexId(g.id) && Unique(g.members, MemberKey)
    ensures Unique(Aliases(st, n, gs, items), ItemTag)
  {
    if gs != [] {
      UniqueTail(gs, GroupKey);
      assert gs == [gs[0]] + gs[1..];
      AliasTagsUnique(st, n, gs[1..], items);
      MemberTagsUnique(st, n, gs[0].id, gs[0].members, items);
      MemberAliasesFrom(st, n, gs[0].id, gs[0].members, items);
      AliasesFrom(st, n, gs[1..], items);
      var head := if gs[0].enabled then MemberAliases(st, n, gs[0].id, gs[0].members, items) else [];
      var rest := Aliases(st, n, gs[1..], items);
      forall x, y | x in head && y in rest ensures x.tag != y.tag {
        var m :| m in gs[0].members && x.tag == AliasTag(gs[0].id, m.outboundId);
        var h, k :| h in gs[1..] && h.enabled && k in h.members && y.tag == AliasTag(h.id, k.outboundId);
        AliasDecodes(gs[0].id, gs[0].id, m.outboundId);
        AliasDecodes(gs[0].id, h.id, k.outboundId);
      }
      UniqueConcat(head, rest, ItemTag);
    }
  }

  lemma {:induction false} UniqueFilter<T>(xs: seq<T>, key: T -> string, p: T -> bool)
    requires Unique(xs, key)
    ensures Unique(Filter(xs, p), key)
  {
    if xs != [] {
      UniqueTail(xs, key);
      UniqueFilter(xs[1..], key, p);
      FilterMembers(xs[1..], p);
      UniqueConcat(if p(xs[0]) then [xs[0]] else [], Filter(xs[1..], p), key);
    }
  }

  lemma BaseTagsUnique(st: State, n: string)
    requires Inv(st)
    ensures Unique(BaseItems(st, n), ItemTag)
  {
    var xs := Filter(st.outbounds, OutboundOn(n));
    UniqueFilter(st.outbounds, OutboundKey, OutboundOn(n));
    FilterMembers(st.outbounds, OutboundOn(n));
    forall a, b | a in xs && b in xs && a.id != b.id ensures a.tag != b.tag { assert OutboundsApart(a, b); }
    OutboundTagsUnique(xs);
    OutboundItemsFrom(xs);
    forall x, y | x in BASE && y in OutboundItems(xs) ensures x.tag != y.tag {
      var o :| o in xs && o.enabled && y == ItemOf(o);
      assert OutboundOk(o, NodeIds(st));
    }
    UniqueConcat(BASE, OutboundItems(xs), ItemTag);
  }

  /** All outbound tags of a node's configuration are distinct: built-in ones, stored ones and aliases. */
  lemma EmittedTagsUnique(st: State, n: string)
    requires Inv(st)
    ensures Unique(AllItems(st, n), ItemTag)
  {
    var gs := Filter(st.groups, GroupOn(n));
    var items := ByTag(BaseItems(st, n));
    UniqueFilter(st.groups, GroupKey, GroupOn(n));
    FilterMembers(st.groups, GroupOn(n));
    forall g | g in gs ensures HexId(g.id) && Unique(g.members, MemberKey) {
      assert GroupOk(g, NodeIds(st), st.outbounds);
    }
    AliasTagsUnique(st, n, gs, items);
    AliasesFrom(st, n, gs, items);
    BaseTagsUnique(st, n);
    forall x, y | x in BaseItems(st, n) && y in AliasItems(st, n) ensures x.tag != y.tag {
      var g, m :| g in gs && g.enabled && m in g.members && y.tag == AliasTag(g.id, m.outboundId);
      AliasParts(g.id, m.outboundId);
      BaseTagIsNoAlias(st, n, x);
    }
    UniqueConcat(BaseItems(st, n), AliasItems(st, n), ItemTag);
  }

  // ---------- isolation ----------

  lemma {:induction false} ByTagFinds(items: seq<OutboundItem>, it: OutboundItem)
    requires Unique(items, ItemTag) && it in items && it.tag != ""
    ensures it.tag in ByTag(items) && ByTag(items)[it.tag] == it
  {
    var last, init := items[|items| - 1], items[..|items| - 1];
    if it != last {
      assert items == init + [last];
      ByTagFinds(init, it);
      var i :| 0 <= i < |init| && init[i] == it;
      assert ItemTag(items[i]) != ItemTag(items[|items| - 1]);
    }
  }

  /** Every member has its alias, a copy of the member's own outbound under the alias tag. */
  lemma MembersHaveAliases(st: State, g: Group, m: Member)
    requires Inv(st) && g in st.groups && g.enabled && m in g.members
    ensures OutboundOf(st, m.outboundId).Some?
    ensures ItemOf(OutboundOf(st, m.outboundId).value).(tag := AliasTag(g.id, m.outboundId)) in AllItems(st, g.nodeId)
  {
    var n := g.nodeId;
    var base := BaseItems(st, n);
    assert GroupOk(g, NodeIds(st), st.outbounds);
    assert Available(st.outbounds, n, m.outboundId);
    var o := OutboundOf(st, m.outboundId).value;
    FilterMembers(st.outbounds, OutboundOn(n));
    FilterMembers(st.groups, GroupOn(n));
    OutboundItemsFrom(Filter(st.outbounds, OutboundOn(n)));
    BaseTagsUnique(st, n);
    assert OutboundOk(o, NodeIds(st));
    ByTagFinds(base, ItemOf(o));
    MemberAliasesFrom(st, n, g.id, g.members, ByTag(base));
    AliasesFrom(st, n, Filter(st.groups, GroupOn(n)), ByTag(base));
  }

  lemma SelectedIsMember(st: State, g: Group, it: OutboundItem) returns (m: Member)
    requires Inv(st) && g in st.groups && it in AllItems(st, g.nodeId) && HasPrefix(it.tag, MemberPrefix(g.id))
    ensures m in g.members && it.tag == AliasTag(g.id, m.outboundId)
  {
    var n := g.nodeId;
    var gs := Filter(st.groups, GroupOn(n));
    assert MemberPrefix(g.id)[..4] == "gbm-";
    assert HasPrefix(it.tag, "gbm-");
    if it in BaseItems(st, n) { BaseTagIsNoAlias(st, n, it); }
    AliasesFrom(st, n, gs, ByTag(BaseItems(st, n)));
    var h: Group, k: Member :| h in gs && h.enabled && k in h.members && it.tag == AliasTag(h.id, k.outboundId);
    FilterMembers(st.groups, GroupOn(n));
    assert GroupOk(g, NodeIds(st), st.outbounds) && GroupOk(h, NodeIds(st), st.outbounds);
    AliasDecodes(g.id, h.id, k.outboundId);
    UniqueIn(st.groups, GroupKey, g);
    UniqueIn(st.groups, GroupKey, h);
    m := k;
  }

  /** Main result: among all outbound tags of the node, the selector of a group's balancer matches exactly the aliases
      of that group's members. */
  lemma SelectorExact(st: State, g: Group, tag: string)
    requires Inv(st) && g in st.groups && g.enabled
    ensures (exists it :: it in AllItems(st, g.nodeId) && it.tag == tag && HasPrefix(it.tag, MemberPrefix(g.id))) <==>
            (exists m :: m in g.members && tag == AliasTag(g.id, m.outboundId))
  {
    if m :| m in g.members && tag == AliasTag(g.id, m.outboundId) {
      MembersHaveAliases(st, g, m);
      AliasParts(g.id, m.outboundId);
      var it := ItemOf(OutboundOf(st, m.outboundId).value).(tag := tag);
      assert it in AllItems(st, g.nodeId) && it.tag == tag && HasPrefix(it.tag, MemberPrefix(g.id));
    }
    if it :| it in AllItems(st, g.nodeId) && it.tag == tag && HasPrefix(it.tag, MemberPrefix(g.id)) {
      var m := SelectedIsMember(st, g, it);
    }
  }

  // ---------- every balancer tag has a balancer ----------

  predicate HasBlackhole(st: State, g: Group) {
    exists m :: m in g.members && OutboundOf(st, m.outboundId).Some? &&
      OutboundOf(st, m.outboundId).value.protocol == "blackhole"
  }

  /** In a state with integrity the re-validation at compile time can only fail on the node's switches or on a member
      that became a blackhole. */
  lemma RevalidationExact(st: State, g: Group)
    requires Inv(st) && g in st.groups
    ensures Groups.Validate(st, g).None? <==> NodeForWork(st, g.nodeId).None? && !HasBlackhole(st, g)
  {
    assert GroupOk(g, NodeIds(st), st.outbounds);
    forall x | x in st.groups && x.id != g.id && x.nodeId == g.nodeId ensures Fold(x.name) != Fold(g.name) {
      assert GroupsApart(x, g);
    }
    assert Groups.FallbackError(st, g).None?;
    forall m | m in g.members
      ensures Groups.MemberError(st, g, m.outboundId).None? <==>
              OutboundOf(st, m.outboundId).value.protocol != "blackhole"
    {
      assert Available(st.outbounds, g.nodeId, m.outboundId);
    }
  }

  lemma {:induction false} BalancersFrom(st: State, gs: seq<Group>, tag: string)
    ensures (exists b :: b in Compiler.Balancers(st, gs) && b.tag == tag) <==>
            (exists g :: g in gs && g.enabled && Groups.Validate(st, g).None? && BalancerTag(g.id) == tag)
  {
    if gs != [] {
      BalancersFrom(st, gs[1..], tag);
      assert gs == [gs[0]] + gs[1..];
      var rest := Compiler.Balancers(st, gs[1..]);
      if g :| g in gs && g.enabled && Groups.Validate(st, g).None? && BalancerTag(g.id) == tag {
        if g in gs[1..] {
          var b :| b in rest && b.tag == tag;
          assert b in Compiler.Balancers(st, gs);
        } else {
          assert BalancerFor(st, g) in Compiler.Balancers(st, gs);
        }
      }
      if b :| b in Compiler.Balancers(st, gs) && b.tag == tag {
        if b in rest {
          var g :| g in gs[1..] && g.enabled && Groups.Validate(st, g).None? && BalancerTag(g.id) == tag;
          assert g in gs;
        } else {
          assert gs[0] in gs;
        }
      }
    }
  }

  /** A rule that compiles to a balancer has that balancer in the configuration exactly when the node is enabled, not
      in maintenance, and no member of the group became a blackhole. */
  lemma BalancerEmitted(st: State, n: string, r: Rule, g: Group)
    requires Inv(st) && r in st.rules && r.nodeId == n && r.enabled && r.groupId == g.id && g in st.groups
    ensures TargetOf(st, n, r) == Some(ToBalancer(BalancerTag(g.id)))
    ensures (exists b :: b in Compiler.Balancers(st, Filter(st.groups, GroupOn(n))) && b.tag == BalancerTag(g.id)) <==>
            NodeForWork(st, n).None? && !HasBlackhole(st, g)
  {
    assert RuleFits(st, r) && GroupOk(g, NodeIds(st), st.outbounds);
    UniqueIn(st.groups, GroupKey, g);
    var gs := Filter(st.groups, GroupOn(n));
    FilterMembers(st.groups, GroupOn(n));
    BalancersFrom(st, gs, BalancerTag(g.id));
    RevalidationExact(st, g);
    assert g in gs;
    forall h | h in gs && BalancerTag(h.id) == BalancerTag(g.id) ensures h == g {
      assert BalancerTag(h.id)[7..] == h.id && BalancerTag(g.id)[7..] == g.id;
      UniqueIn(st.groups, GroupKey, h);
    }
  }
}
