/** Store.Update on the heap: why closures that write into slices in place cannot harm the live state. cloneState copies
    every array such a closure writes to, so an update that fails, even after writes, leaves no trace. */
module LiveState {
  import opened Wrappers
  import opened Lists
  import opened Text
  import opened Entities
  import opened Slices
  import Admin
  import Rules

  // ---------- rules with their five lists ----------

  /** A routing rule in memory: five slices, and the other fields in `rest`. */
  datatype Row = Row(rest: Rule, inboundIds: Slice<string>, userIds: Slice<string>, domains: Slice<string>,
                     ips: Slice<string>, protocols: Slice<string>)

  ghost predicate RowFits(r: Row) {
    Fits(r.inboundIds) && Fits(r.userIds) && Fits(r.domains) && Fits(r.ips) && Fits(r.protocols)
  }

  /** The arrays a user deletion does not write to. */
  ghost function OtherLists(r: Row): set<object> {
    {r.inboundIds.data, r.domains.data, r.ips.data, r.protocols.data}
  }

  ghost function RowLists(r: Row): set<object> {
    OtherLists(r) + {r.userIds.data}
  }

  /** The record that a row stands for. */
  ghost function RuleIn(r: Row): Rule
    requires RowFits(r)
    reads RowLists(r)
  {
    r.rest.(inboundIds := Contents(r.inboundIds), userIds := Contents(r.userIds),
            matcher := r.rest.matcher.(domains := Contents(r.domains), ips := Contents(r.ips),
                                       protocols := Contents(r.protocols)))
  }

  /** The rows stand for the rules; all their lists are among `lists`. */
  ghost predicate RowsStand(rows: seq<Row>, rules: seq<Rule>, lists: set<object>)
    reads lists
  {
    && |rows| == |rules|
    && forall i | 0 <= i < |rows| :: RowFits(rows[i]) && RowLists(rows[i]) <= lists && RuleIn(rows[i]) == rules[i]
  }

  /** No two rules share a user list, and no user list is also some other list. */
  ghost predicate Separate(rows: seq<Row>) {
    forall i, j | 0 <= i < |rows| && 0 <= j < |rows| ::
      rows[i].userIds.data !in OtherLists(rows[j]) && (i != j ==> rows[i].userIds.data != rows[j].userIds.data)
  }

  method CloneRow(r: Row) returns (c: Row)
    requires RowFits(r)
    ensures RowFits(c) && fresh(RowLists(c)) && RuleIn(c) == RuleIn(r) && c.userIds.data !in OtherLists(c)
  {
    var inboundIds := Clone(r.inboundIds);
    var userIds := Clone(r.userIds);
    var domains := Clone(r.domains);
    var ips := Clone(r.ips);
    var protocols := Clone(r.protocols);
    c := Row(r.rest, inboundIds, userIds, domains, ips, protocols);
  }

  lemma SeparateAppend(rows: seq<Row>, r: Row, known: set<object>)
    requires Separate(rows) && r.userIds.data !in OtherLists(r) && RowLists(r) !! known
    requires forall i | 0 <= i < |rows| :: RowLists(rows[i]) <= known
    ensures Separate(rows + [r])
    ensures forall i | 0 <= i < |rows + [r]| :: RowLists((rows + [r])[i]) <= known + RowLists(r)
  {
    forall i | 0 <= i < |rows|
      ensures rows[i].userIds.data != r.userIds.data
      ensures rows[i].userIds.data !in OtherLists(r) && r.userIds.data !in OtherLists(rows[i])
    {
      assert RowLists(rows[i]) <= known;
      assert rows[i].userIds.data in RowLists(rows[i]);
    }
  }

  /** Copying the lists of one rule. */
  method CloneNext(r: Row, out: seq<Row>, ghost rule: Rule, ghost rules: seq<Rule>, ghost lists: set<object>)
    returns (next: seq<Row>, ghost more: set<object>)
    requires RowFits(r) && RuleIn(r) == rule && RowsStand(out, rules, lists) && Separate(out)
    ensures RowsStand(next, rules + [rule], lists + more) && Separate(next) && fresh(more)
  {
    var row := CloneRow(r);
    SeparateAppend(out, row, lists);
    more := RowLists(row);
    next := out + [row];
  }

  /** The lists of every rule in turn. */
  method CloneRows(rows: seq<Row>, ghost rules: seq<Rule>, ghost lists: set<object>)
    returns (out: seq<Row>, ghost copies: set<object>)
    requires RowsStand(rows, rules, lists)
    ensures RowsStand(out, rules, copies) && Separate(out) && fresh(copies)
  {
    out := [];
    copies := {};
    for k := 0 to |rows|
      invariant RowsStand(out, rules[..k], copies) && Separate(out) && fresh(copies)
    {
      ghost var more;
      out, more := CloneNext(rows[k], out, rules[k], rules[..k], copies);
      assert rules[..k + 1] == rules[..k] + [rules[k]];
      copies := copies + more;
    }
    assert rules[..|rows|] == rules;
  }

  /** The copy of the rules in cloneState. */
  method CloneRules(s: Slice<Row>, ghost rules: seq<Rule>, ghost lists: set<object>)
    returns (c: Slice<Row>, ghost copies: set<object>)
    requires Fits(s) && RowsStand(Contents(s), rules, lists)
    ensures Fits(c) && fresh(c.data) && fresh(copies) && c.data !in copies
    ensures RowsStand(Contents(c), rules, copies) && Separate(Contents(c))
  {
    var rows;
    rows, copies := CloneRows(s.data[..s.len], rules, lists);
    c := Clone(s);
    for k := 0 to c.len
      invariant c.data[..k] == rows[..k]
      invariant RowsStand(rows, rules, copies)
    {
      c.data[k] := rows[k];
    }
    assert Contents(c) == rows;
  }

  // ---------- the live state ----------

  /** The collections that user updates write to, as slices; `rest` holds the others. */
  datatype Live = Live(users: Slice<User>, peers: Slice<Peer>, clients: Slice<Client>, rules: Slice<Row>, rest: State)

  /** Every array the state consists of. */
  ghost function Heap(l: Live, lists: set<object>): set<object> {
    {l.users.data, l.peers.data, l.clients.data, l.rules.data} + lists
  }

  /** The arrays stand for the state. */
  ghost predicate Stands(l: Live, st: State, lists: set<object>)
    reads Heap(l, lists)
  {
    && Fits(l.users) && Fits(l.peers) && Fits(l.clients) && Fits(l.rules) && l.rules.data !in lists
    && st == l.rest.(users := Contents(l.users), peers := Contents(l.peers), clients := Contents(l.clients),
       rules := st.rules)
    && RowsStand(Contents(l.rules), st.rules, lists)
  }

  /** cloneState */
  method CloneLive(l: Live, ghost st: State, ghost lists: set<object>) returns (c: Live, ghost copies: set<object>)
    requires Stands(l, st, lists)
    ensures Stands(c, st, copies) && Separate(Contents(c.rules)) && fresh(Heap(c, copies))
    ensures c.users.data !in copies && c.peers.data !in copies && c.clients.data !in copies
  {
    var rules;
    rules, copies := CloneRules(l.rules, st.rules, lists);
    var users := Clone(l.users);
    var peers := Clone(l.peers);
    var clients := Clone(l.clients);
    c := Live(users, peers, clients, rules, l.rest);
  }

  // ---------- closures ----------

  /** deleteString on the user list of one rule. */
  method ForgetInRow(r: Row, id: string) returns (c: Row)
    requires RowFits(r) && r.userIds.data !in OtherLists(r)
    modifies r.userIds.data
    ensures c == r.(userIds := Slice(r.userIds.data, c.userIds.len)) && RowFits(c)
    ensures RuleIn(c) == Admin.ForgetUser(old(RuleIn(r)), id)
  {
    var users := FilterInPlace(r.userIds, Admin.NotString(id));
    c := r.(userIds := users);
  }

  lemma OthersApart(rows: seq<Row>, k: nat)
    requires Separate(rows) && k < |rows|
    ensures forall i | 0 <= i < |rows| && i != k :: rows[k].userIds.data !in RowLists(rows[i])
  {
  }

  lemma RowsPut(rows: seq<Row>, rules: seq<Rule>, lists: set<object>, k: nat, row: Row, rule: Rule)
    requires |rows| == |rules| && k < |rows|
    requires forall i | 0 <= i < |rows| && i != k ::
               RowFits(rows[i]) && RowLists(rows[i]) <= lists && RuleIn(rows[i]) == rules[i]
    requires RowFits(row) && RowLists(row) <= lists && RuleIn(row) == rule
    ensures RowsStand(rows[k := row], rules[k := rule], lists)
  {
  }

  lemma SeparatePut(rows: seq<Row>, k: nat, row: Row)
    requires Separate(rows) && k < |rows| && row == rows[k].(userIds := Slice(rows[k].userIds.data, row.userIds.len))
    ensures Separate(rows[k := row]) && RowLists(row) == RowLists(rows[k])
  {
  }

  /** The user list of one row of many. */
  method ForgetOne(rows: seq<Row>, k: nat, id: string, ghost rules: seq<Rule>, ghost lists: set<object>)
      returns (row: Row)
    requires k < |rows| && RowsStand(rows, rules, lists) && Separate(rows)
    modifies lists
    ensures RowsStand(rows[k := row], rules[k := Admin.ForgetUser(rules[k], id)], lists) && Separate(rows[k := row])
  {
    assert RowLists(rows[k]) <= lists && rows[k].userIds.data in RowLists(rows[k]);
    OthersApart(rows, k);
    row := ForgetInRow(rows[k], id);
    SeparatePut(rows, k, row);
    RowsPut(rows, rules, lists, k, row, Admin.ForgetUser(rules[k], id));
  }

  /** One step of the loop over the rules. */
  method ForgetAt(s: Slice<Row>, k: nat, id: string, ghost rules: seq<Rule>, ghost lists: set<object>)
    requires Fits(s) && k < s.len && s.data !in lists && RowsStand(Contents(s), rules, lists) && Separate(Contents(s))
    modifies s.data, lists
    ensures RowsStand(Contents(s), rules[k := Admin.ForgetUser(rules[k], id)], lists) && Separate(Contents(s))
  {
    ghost var rows := Contents(s);
    var row := ForgetOne(s.data[..s.len], k, id, rules, lists);
    s.data[k] := row;
    assert Contents(s) == rows[k := row];
  }

  /** The rules when the loop has passed the first k. */
  ghost function ForgottenUpTo(rules: seq<Rule>, id: string, k: nat): (r: seq<Rule>)
    ensures |r| == |rules|
  {
    seq(|rules|, i requires 0 <= i < |rules| => if i < k then Admin.ForgetUser(rules[i], id) else rules[i])
  }

  lemma ForgottenStep(rules: seq<Rule>, id: string, k: nat)
    requires k < |rules|
    ensures var r := ForgottenUpTo(rules, id, k); r[k := Admin.ForgetUser(r[k], id)] == ForgottenUpTo(rules, id, k + 1)
  {
  }

  lemma ForgottenEnds(rules: seq<Rule>, id: string)
    ensures ForgottenUpTo(rules, id, 0) == rules && ForgottenUpTo(rules, id, |rules|) == Admin.ForgetUserAll(rules, id)
  {
  }

  /** deleteString on the user list of every rule. */
  method ForgetInRules(s: Slice<Row>, id: string, ghost rules: seq<Rule>, ghost lists: set<object>)
    requires Fits(s) && s.data !in lists && RowsStand(Contents(s), rules, lists) && Separate(Contents(s))
    modifies s.data, lists
    ensures RowsStand(Contents(s), Admin.ForgetUserAll(rules, id), lists)
  {
    ForgottenEnds(rules, id);
    for k := 0 to s.len
      invariant RowsStand(Contents(s), ForgottenUpTo(rules, id, k), lists) && Separate(Contents(s))
    {
      ForgottenStep(rules, id, k);
      ForgetAt(s, k, id, ForgottenUpTo(rules, id, k), lists);
    }
  }

  /** The closure of user deletion: three slices and the lists of every rule are filtered in place. */
  method DeleteUserIn(l: Live, id: string, ghost st: State, ghost lists: set<object>) returns (ok: bool, out: Live)
    requires Stands(l, st, lists) && Separate(Contents(l.rules))
    requires l.users.data !in lists && l.peers.data !in lists && l.clients.data !in lists
    modifies Heap(l, lists)
    ensures ok == Admin.DeleteUser(st, id).Ok? && Heap(out, lists) == Heap(l, lists)
    ensures ok ==> Stands(out, Admin.DeleteUser(st, id).value, lists)
  {
    out := l;
    if Find(l.users.data[..l.users.len], UserKey, id) == None {
      return false, l;
    }
    var users := DeleteById(l.users, id, UserKey);
    var peers := FilterInPlace(l.peers, Admin.PeerNotOf(id));
    var clients := FilterInPlace(l.clients, Admin.ClientNotOf(id));
    ForgetInRules(l.rules, id, st.rules, lists);
    ok, out := true, Live(users, peers, clients, l.rules, l.rest);
  }

  /** The loop that looks for another user with the name. */
  method NameTaken(users: Slice<User>, id: string, name: string) returns (taken: bool)
    requires Fits(users)
    ensures taken <==> exists u :: u in Contents(users) && u.id != id && u.username == name
  {
    for k := 0 to users.len
      invariant forall i | 0 <= i < k :: users.data[i].id == id || users.data[i].username != name
    {
      if users.data[k].id != id && users.data[k].username == name {
        assert users.data[k] in Contents(users);
        return true;
      }
    }
    return false;
  }

  /** The closure of user editing, which writes the name before it looks at the plan. */
  method EditInSlice(users: Slice<User>, rest: State, id: string, y: User) returns (ok: bool)
    requires Fits(users)
    modifies users.data
    ensures var st := rest.(users := old(Contents(users)));
            && ok == Admin.EditUser(st, id, y).Ok?
            && (ok ==> rest.(users := Contents(users)) == Admin.EditUser(st, id, y).value)
  {
    ghost var was := Contents(users);
    ghost var st := rest.(users := was);
    var i := IndexOf(users.data[..users.len], UserKey, id);
    if i == users.len {
      return false;
    }
    assert UserOf(st, id) == Some(was[i]);
    if Trim(y.username) != "" {
      var taken := NameTaken(users, id, Fold(y.username));
      assert taken == Admin.UsernameTaken(st, id, Fold(y.username));
      if taken {
        return false;
      }
      users.data[i] := users.data[i].(username := Fold(y.username));
    }
    if y.planId != "" {
      var p := PlanOf(rest, y.planId);
      if p == None || !p.value.enabled {
        return false;
      }
      users.data[i] := users.data[i].(planId := y.planId);
    }
    users.data[i] := y.(id := id, username := users.data[i].username, planId := users.data[i].planId);
    assert Contents(users) == was[i := users.data[i]];
    return true;
  }

  /** Editing looks at users and plans, and changes users. */
  lemma EditIsLocal(st: State, rest: State, id: string, y: User)
    requires rest.users == st.users && rest.plans == st.plans
    ensures Admin.EditUser(st, id, y).Ok? == Admin.EditUser(rest, id, y).Ok?
    ensures Admin.EditUser(st, id, y).Ok? ==>
              Admin.EditUser(st, id, y).value == st.(users := Admin.EditUser(rest, id, y).value.users)
  {
  }

  method EditUserIn(l: Live, id: string, y: User, ghost st: State, ghost lists: set<object>) returns (ok: bool)
    requires Stands(l, st, lists) && l.users.data !in lists
    modifies l.users.data
    ensures ok == Admin.EditUser(st, id, y).Ok?
    ensures ok ==> Stands(l, Admin.EditUser(st, id, y).value, lists)
  {
    EditIsLocal(st, l.rest.(users := st.users), id, y);
    ok := EditInSlice(l.users, l.rest, id, y);
  }

  // ---------- closures that delete and re-insert a rule ----------

  function RowKey(r: Row): string { r.rest.id }

  lemma {:induction false} RowsIndex(rows: seq<Row>, rules: seq<Rule>, lists: set<object>, id: string)
    requires RowsStand(rows, rules, lists)
    ensures IndexOf(rows, RowKey, id) == IndexOf(rules, RuleKey, id)
  {
    if rows != [] {
      assert RuleIn(rows[0]) == rules[0];
      RowsTail(rows, rules, lists);
      RowsIndex(rows[1..], rules[1..], lists, id);
    }
  }

  lemma RowsTail(rows: seq<Row>, rules: seq<Rule>, lists: set<object>)
    requires RowsStand(rows, rules, lists) && rows != []
    ensures RowsStand(rows[1..], rules[1..], lists)
  {
    var rt, st := rows[1..], rules[1..];
    forall i | 0 <= i < |rt| ensures RowFits(rt[i]) && RowLists(rt[i]) <= lists && RuleIn(rt[i]) == st[i] {
      assert rt[i] == rows[i + 1];
    }
  }

  lemma RowsCons(r: Row, rule: Rule, rows: seq<Row>, rules: seq<Rule>, lists: set<object>)
    requires RowsStand(rows, rules, lists) && RowFits(r) && RowLists(r) <= lists && RuleIn(r) == rule
    ensures RowsStand([r] + rows, [rule] + rules, lists)
  {
  }

  lemma {:induction false} RowsWithout(rows: seq<Row>, rules: seq<Rule>, lists: set<object>, id: string)
    requires RowsStand(rows, rules, lists)
    ensures RowsStand(Without(rows, RowKey, id), Without(rules, RuleKey, id), lists)
  {
    if rows != [] {
      assert RowFits(rows[0]) && RowLists(rows[0]) <= lists && RuleIn(rows[0]) == rules[0];
      RowsTail(rows, rules, lists);
      RowsWithout(rows[1..], rules[1..], lists, id);
      RowsCons(rows[0], rules[0], Without(rows[1..], RowKey, id), Without(rules[1..], RuleKey, id), lists);
    }
  }

  lemma RowsInsert(rows: seq<Row>, rules: seq<Rule>, lists: set<object>, i: nat, r: Row, rule: Rule)
    requires RowsStand(rows, rules, lists) && i <= |rows|
    requires RowFits(r) && RuleIn(r) == rule
    ensures RowsStand(InsertAt(rows, i, r), InsertAt(rules, i, rule), lists + RowLists(r))
  {
    var rs, xs := InsertAt(rows, i, r), InsertAt(rules, i, rule);
    forall k | 0 <= k < |rs|
      ensures RowFits(rs[k]) && RowLists(rs[k]) <= lists + RowLists(r) && RuleIn(rs[k]) == xs[k]
    {
      if k < i { assert rs[k] == rows[k]; }
      if k > i { assert rs[k] == rows[k - 1]; }
    }
  }

  /** The closure of rule deletion. */
  method DeleteRuleIn(l: Live, id: string, ghost st: State, ghost lists: set<object>) returns (ok: bool, out: Live)
    requires Stands(l, st, lists)
    modifies l.rules.data
    ensures ok == Rules.Delete(st, id).Ok? && Heap(out, lists) == Heap(l, lists)
    ensures ok ==> Stands(out, Rules.Delete(st, id).value, lists)
  {
    ghost var rows := Contents(l.rules);
    RowsIndex(rows, st.rules, lists, id);
    if IndexOf(l.rules.data[..l.rules.len], RowKey, id) == l.rules.len {
      return false, l;
    }
    RowsWithout(rows, st.rules, lists, id);
    var rules := DeleteById(l.rules, id, RowKey);
    ok, out := true, l.(rules := rules);
  }

  method MakeList(xs: seq<string>) returns (s: Slice<string>)
    ensures Fits(s) && fresh(s.data) && Contents(s) == xs
  {
    var data := new string[|xs|](i requires 0 <= i < |xs| => xs[i]);
    s := Slice(data, |xs|);
    assert data[..] == xs;
  }

  /** A rule in memory with lists of its own, as cloneRoutingRuleValue captures it. */
  method MakeRow(r: Rule) returns (row: Row)
    ensures RowFits(row) && fresh(RowLists(row)) && RuleIn(row) == r
  {
    var inboundIds := MakeList(r.inboundIds);
    var userIds := MakeList(r.userIds);
    var domains := MakeList(r.matcher.domains);
    var ips := MakeList(r.matcher.ips);
    var protocols := MakeList(r.matcher.protocols);
    row := Row(r, inboundIds, userIds, domains, ips, protocols);
  }

  const BLANK := Rule("", "", "", 0, false, [], [], Matcher([], [], "", "", []), "", "", 0, 0)

  /** append, or append a blank, shift and store */
  method PutInSlice(s: Slice<Row>, index: nat, row: Row, blank: Row) returns (out: Slice<Row>)
    requires Fits(s)
    modifies s.data
    ensures Fits(out) && (out.data == s.data || fresh(out.data))
    ensures Contents(out) == InsertAt(old(Contents(s)), if index > s.len then s.len else index, row)
  {
    if index > s.len {
      out := Append(s, row);
    } else {
      out := InsertInPlace(s, index, blank, row);
    }
  }

  method PutRow(s: Slice<Row>, index: nat, row: Row, ghost rules: seq<Rule>, ghost rule: Rule, ghost lists: set<object>)
    returns (out: Slice<Row>)
    requires Fits(s) && s.data !in lists && s.data !in RowLists(row) && RowsStand(Contents(s), rules, lists)
    requires RowFits(row) && RuleIn(row) == rule
    modifies s.data
    ensures Fits(out) && (out.data == s.data || fresh(out.data))
    ensures RowsStand(Contents(out), InsertAt(rules, if index > |rules| then |rules| else index, rule),
            lists + RowLists(row))
  {
    RowsInsert(Contents(s), rules, lists, if index > s.len then s.len else index, row, rule);
    var blank := MakeRow(BLANK);
    out := PutInSlice(s, index, row, blank);
  }

  lemma UndoIsInsert(st: State, before: Rule, index: nat)
    requires RuleOf(st, before.id).None?
    ensures Rules.UndoDelete(st, before.id, before, index) ==
            Ok(st.(rules := InsertAt(st.rules, if index > |st.rules| then |st.rules| else index, before)))
  {
    assert st.rules + [before] == InsertAt(st.rules, |st.rules|, before);
  }

  lemma OtherRules(l: Live, st: State, lists: set<object>, rules: Slice<Row>, now: seq<Rule>, more: set<object>)
    requires Fits(l.users) && Fits(l.peers) && Fits(l.clients)
    requires st == l.rest.(users := Contents(l.users), peers := Contents(l.peers), clients := Contents(l.clients),
                           rules := st.rules)
    requires Fits(rules) && rules.data !in more && RowsStand(Contents(rules), now, more)
    ensures Stands(l.(rules := rules), st.(rules := now), more)
  {
  }

  method InsertRuleIn(l: Live, before: Rule, index: nat, ghost st: State, ghost lists: set<object>)
    returns (out: Live, ghost more: set<object>)
    requires Stands(l, st, lists)
    modifies l.rules.data
    ensures Stands(out, st.(rules := InsertAt(st.rules, if index > |st.rules| then |st.rules| else index, before)),
            more)
    ensures out == l.(rules := out.rules) && (out.rules.data == l.rules.data || fresh(out.rules.data))
    ensures lists <= more && fresh(more - lists)
  {
    ghost var now := InsertAt(st.rules, if index > |st.rules| then |st.rules| else index, before);
    var row := MakeRow(before);
    more := lists + RowLists(row);
    var rules := PutRow(l.rules, index, row, st.rules, before, lists);
    out := l.(rules := rules);
    OtherRules(l, st, lists, rules, now, more);
  }

  /** The closure of the rollback: nothing when the rule is there, else the rule comes back. */
  method ReinsertRuleIn(l: Live, before: Rule, index: nat, ghost st: State, ghost lists: set<object>)
    returns (out: Live, ghost more: set<object>)
    requires Stands(l, st, lists)
    modifies l.rules.data
    ensures Stands(out, Rules.UndoDelete(st, before.id, before, index).value, more)
    ensures out == l.(rules := out.rules) && (out.rules.data == l.rules.data || fresh(out.rules.data))
    ensures lists <= more && fresh(more - lists)
  {
    RowsIndex(Contents(l.rules), st.rules, lists, before.id);
    if IndexOf(l.rules.data[..l.rules.len], RowKey, before.id) < l.rules.len {
      return l, lists;
    }
    UndoIsInsert(st, before, index);
    out, more := InsertRuleIn(l, before, index, st, lists);
  }

  // ---------- the update ----------

  datatype Edit =
    | DeleteUser(id: string) | EditUser(id: string, user: User)
    | DeleteRule(id: string) | ReinsertRule(before: Rule, index: nat)

  datatype UpdateOutcome = ClosureError | SaveError | Saved

  function Edited(st: State, e: Edit): Outcome<State> {
    match e
    case DeleteUser(id) => Admin.DeleteUser(st, id)
    case EditUser(id, y) => Admin.EditUser(st, id, y)
    case DeleteRule(id) => Rules.Delete(st, id)
    case ReinsertRule(before, index) => Rules.UndoDelete(st, before.id, before, index)
  }

  function OutcomeOf(st: State, e: Edit, saved: bool): UpdateOutcome {
    if Edited(st, e).Err? then ClosureError else if saved then Saved else SaveError
  }

  method RunClosure(l: Live, e: Edit, ghost st: State, ghost lists: set<object>)
    returns (ok: bool, out: Live, ghost more: set<object>)
    requires Stands(l, st, lists) && Separate(Contents(l.rules))
    requires l.users.data !in lists && l.peers.data !in lists && l.clients.data !in lists
    modifies Heap(l, lists)
    ensures ok == Edited(st, e).Ok?
    ensures forall o | o in Heap(out, more) :: o in Heap(l, lists) || fresh(o)
    ensures ok ==> Stands(out, Edited(st, e).value, more)
  {
    out, more := l, lists;
    match e
    case DeleteUser(id) => ok, out := DeleteUserIn(l, id, st, lists);
    case EditUser(id, y) => ok := EditUserIn(l, id, y, st, lists);
    case DeleteRule(id) => ok, out := DeleteRuleIn(l, id, st, lists);
    case ReinsertRule(before, index) =>
      out, more := ReinsertRuleIn(l, before, index, st, lists);
      ok := true;
  }

  /** Cloning, then the closure on the clone: nothing that existed before is written to. */
  method Attempt(l: Live, e: Edit, ghost st: State, ghost lists: set<object>)
    returns (ok: bool, next: Live, ghost copies: set<object>)
    requires Stands(l, st, lists)
    ensures Stands(l, st, lists)
    ensures ok == Edited(st, e).Ok? && fresh(Heap(next, copies))
    ensures ok ==> Stands(next, Edited(st, e).value, copies)
  {
    var clone;
    ghost var cloned;
    clone, cloned := CloneLive(l, st, lists);
    ok, next, copies := RunClosure(clone, e, st, cloned);
  }

  // ---------- a deletion and its undo ----------

  /** Re-inserting what was deleted, where it was, gives the old state. */
  lemma RuleDeleteUndone(st: State, id: string)
    requires Unique(st.rules, RuleKey) && RuleOf(st, id).Some?
    ensures Rules.Delete(st, id).Ok?
    ensures Rules.UndoDelete(Rules.Delete(st, id).value, id, RuleOf(st, id).value, IndexOf(st.rules, RuleKey, id)) ==
            Ok(st)
  {
    var i := IndexOf(st.rules, RuleKey, id);
    WithoutUnique(st.rules, RuleKey, i);
    FindWithout(st.rules, RuleKey, id);
    assert InsertAt(Without(st.rules, RuleKey, id), i, st.rules[i]) == st.rules;
  }

  class LiveStore {
    var live: Live
    /** What the arrays stand for, and the lists of the rules. */
    ghost var model: State
    ghost var lists: set<object>

    ghost predicate Valid()
      reads this, Heap(live, lists)
    {
      this !in Heap(live, lists) && Stands(live, model, lists)
    }

    constructor (l: Live, ghost st: State, ghost lists: set<object>)
      requires Stands(l, st, lists)
      ensures Valid() && live == l && model == st
    {
      live, model, this.lists := l, st, lists;
    }

    /** Store.Update with one of the closures. Only the fields of the store may change: whatever the closure writes,
        and whether it then errs, the save errs or all goes well, the arrays that were live are not written to and
        stand for what they stood for. A failed update leaves the reference too; a successful one installs the edited
        value in arrays of its own. */
    method Update(e: Edit, saved: bool) returns (outcome: UpdateOutcome)
      requires Valid()
      modifies this
      ensures Valid()
      ensures Stands(old(live), old(model), old(lists))
      ensures outcome == OutcomeOf(old(model), e, saved)
      ensures outcome != Saved ==> live == old(live) && lists == old(lists) && model == old(model)
      ensures outcome == Saved ==> fresh(Heap(live, lists)) && model == Edited(old(model), e).value
    {
      var ok, next;
      ghost var copies;
      ok, next, copies := Attempt(live, e, model, lists);
      outcome := if !ok then ClosureError else if saved then Saved else SaveError;
      if outcome == Saved { Install(next, Edited(model, e).value, copies); }
    }

    /** What the first update of a rule deletion captures: position and value. */
    method FindRule(id: string) returns (index: nat, before: Rule)
      requires Valid()
      ensures index == IndexOf(model.rules, RuleKey, id)
      ensures index < |model.rules| ==> before == model.rules[index]
    {
      var rows := live.rules.data[..live.rules.len];
      RowsIndex(rows, model.rules, lists, id);
      index, before := IndexOf(rows, RowKey, id), BLANK;
      if index < |rows| {
        var r := rows[index];
        assert RuleIn(r) == model.rules[index];
        before := r.rest.(inboundIds := r.inboundIds.data[..r.inboundIds.len],
            userIds := r.userIds.data[..r.userIds.len],
                          matcher := r.rest.matcher.(domains := r.domains.data[..r.domains.len],
                                                     ips := r.ips.data[..r.ips.len],
                                                     protocols := r.protocols.data[..r.protocols.len]));
      }
    }

    /** The store side of deleteRoutingRuleTransactional: with a failed deploy and saved updates the value is the
        old one again; otherwise it is the old one until the first update is saved, and the one without the rule after
        that. */
    method DeleteRuleTransactional(id: string, saved: bool, deployed: bool, undoSaved: bool)
        returns (first: UpdateOutcome)
      requires Valid() && Unique(model.rules, RuleKey)
      modifies this
      ensures Valid() && first == OutcomeOf(old(model), DeleteRule(id), saved)
      ensures model ==
              if first == Saved && (deployed || !undoSaved) then Rules.Delete(old(model), id).value else old(model)
    {
      var index, before := FindRule(id);
      first := Update(DeleteRule(id), saved);
      if first == Saved && !deployed { UndoDeletion(id, index, before, undoSaved, old(model)); }
    }

    /** The rollback update. */
    method UndoDeletion(id: string, index: nat, before: Rule, saved: bool, ghost was: State)
      requires Valid() && Unique(was.rules, RuleKey) && RuleOf(was, id) == Some(before) && before.id == id
      requires Rules.Delete(was, id) == Ok(model) && index == IndexOf(was.rules, RuleKey, id)
      modifies this
      ensures Valid() && model == if saved then was else old(model)
    {
      RuleDeleteUndone(was, id);
      var undone := Update(ReinsertRule(before, index), saved);
    }

    /** s.st = next; the arrays that were live keep standing for what they stood for. */
    method Install(next: Live, ghost st: State, ghost copies: set<object>)
      requires Valid() && Stands(next, st, copies) && this !in Heap(next, copies)
      modifies this
      ensures Valid() && live == next && model == st && lists == copies
      ensures Stands(old(live), old(model), old(lists))
    {
      live, model, lists := next, st, copies;
    }
  }
}
