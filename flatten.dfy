/** `flatten_dict` of `download_excel` (backend/waybill/views.py:545-565):
    a stored extraction result that is a JSON object is turned into one
    (path, text) row per scalar, paths joining object keys with "." and
    list positions as "[i]". `str()` of a value is a parameter (`show`): its
    formatting belongs to the language runtime. */
module Flatten {
  import opened Common
  import opened Strings

  /** A JSON value as stored for an extraction; an object's members keep
      their order. */
  datatype Json =
    | JNull
    | JBool(b: bool)
    | JInt(i: int)
    | JFloat(f: real)
    | JString(s: string)
    | JList(items: seq<Json>)
    | JObject(members: seq<Member>)

  datatype Member = Member(key: string, value: Json)

  /** `f"{parent_key}.{k}" if parent_key else k`. */
  function ChildKey(parent: string, k: string): string
  {
    if parent != "" then parent + "." + k else k
  }

  /** `f"{new_key}[{i}]"`. */
  function IndexKey(key: string, i: nat): string
  {
    key + "[" + Decimal(i) + "]"
  }

  // ---------------------------------------------------------------------
  // The function as written: `items` lists, each nested result passed
  // through `dict(...)` before it is spliced in.
  // ---------------------------------------------------------------------

  /** `flatten_dict(d, parent_key)`. */
  function FlattenDict(members: seq<Member>, parent: string, show: Json -> string): (r: Dict<string>)
    ensures UniqueKeys(r)
    decreases members, 1
  {
    var items := MembersItems(members, parent, show);
    FromItemsLastWins(items, "");
    FromItems(items)
  }

  /** The `items` list built over the members, in order. */
  function MembersItems(members: seq<Member>, parent: string, show: Json -> string): seq<(string, string)>
    decreases members, 0
  {
    if |members| == 0 then []
    else MemberItems(members[0], parent, show) + MembersItems(members[1..], parent, show)
  }

  /** What one member adds to `items`. */
  function MemberItems(m: Member, parent: string, show: Json -> string): seq<(string, string)>
    decreases m, 0
  {
    var key := ChildKey(parent, m.key);
    match m.value
    case JObject(ms) => FlattenDict(ms, key, show)
    case JList(xs) => ListItems(xs, key, 0, show)
    case _ => [(key, show(m.value))]
  }

  /** What the elements of a list, the first at position `start`, add to
      `items`: an object is flattened under its indexed key, anything else
      (a nested list included) is one row. */
  function ListItems(xs: seq<Json>, key: string, start: nat, show: Json -> string): seq<(string, string)>
    decreases xs, 0
  {
    if |xs| == 0 then []
    else
      var here := IndexKey(key, start);
      (match xs[0]
       case JObject(ms) => FlattenDict(ms, here, show)
       case _ => [(here, show(xs[0]))])
      + ListItems(xs[1..], key, start + 1, show)
  }

  // ---------------------------------------------------------------------
  // Reference: every scalar of the document with its path, in document
  // order, without any intermediate `dict`.
  // ---------------------------------------------------------------------

  function MembersLeaves(members: seq<Member>, parent: string, show: Json -> string): seq<(string, string)>
    decreases members
  {
    if |members| == 0 then []
    else MemberLeaves(members[0], parent, show) + MembersLeaves(members[1..], parent, show)
  }

  function MemberLeaves(m: Member, parent: string, show: Json -> string): seq<(string, string)>
    decreases m
  {
    var key := ChildKey(parent, m.key);
    match m.value
    case JObject(ms) => MembersLeaves(ms, key, show)
    case JList(xs) => ListLeaves(xs, key, 0, show)
    case _ => [(key, show(m.value))]
  }

  function ListLeaves(xs: seq<Json>, key: string, start: nat, show: Json -> string): seq<(string, string)>
    decreases xs
  {
    if |xs| == 0 then []
    else
      var here := IndexKey(key, start);
      (match xs[0]
       case JObject(ms) => MembersLeaves(ms, here, show)
       case _ => [(here, show(xs[0]))])
      + ListLeaves(xs[1..], key, start + 1, show)
  }

  // ---------------------------------------------------------------------
  // Properties
  // ---------------------------------------------------------------------

  /** The flattened dict maps each path to the text of the LAST scalar of
      the document with that path, and has no other key: deduplicating the
      nested results early changes nothing. */
  lemma FlattenIsLastLeaf(members: seq<Member>, parent: string, show: Json -> string, k: string)
    ensures UniqueKeys(FlattenDict(members, parent, show))
    ensures Get(FlattenDict(members, parent, show), k) == LastValue(MembersLeaves(members, parent, show), k)
  {
    FromItemsLastWins(MembersItems(members, parent, show), k);
    MembersItemsAgree(members, parent, show, k);
  }

  lemma {:induction false} MembersItemsAgree(members: seq<Member>, parent: string, show: Json -> string, k: string)
    ensures LastValue(MembersItems(members, parent, show), k) == LastValue(MembersLeaves(members, parent, show), k)
    decreases members, 0
  {
    if |members| > 0 {
      MemberItemsAgree(members[0], parent, show, k);
      MembersItemsAgree(members[1..], parent, show, k);
      LastValueAppend(MemberItems(members[0], parent, show), MembersItems(members[1..], parent, show), k);
      LastValueAppend(MemberLeaves(members[0], parent, show), MembersLeaves(members[1..], parent, show), k);
    }
  }

  lemma {:induction false} MemberItemsAgree(m: Member, parent: string, show: Json -> string, k: string)
    ensures LastValue(MemberItems(m, parent, show), k) == LastValue(MemberLeaves(m, parent, show), k)
    decreases m, 0
  {
    var key := ChildKey(parent, m.key);
    match m.value
    case JObject(ms) =>
      LastValueOfFromItems(MembersItems(ms, key, show), k);
      MembersItemsAgree(ms, key, show, k);
    case JList(xs) =>
      ListItemsAgree(xs, key, 0, show, k);
    case _ =>
  }

  lemma {:induction false} ListItemsAgree(xs: seq<Json>, key: string, start: nat, show: Json -> string, k: string)
    ensures LastValue(ListItems(xs, key, start, show), k) == LastValue(ListLeaves(xs, key, start, show), k)
    decreases xs, 0
  {
    if |xs| > 0 {
      var here := IndexKey(key, start);
      var headItems: seq<(string, string)> :=
        match xs[0] case JObject(ms) => FlattenDict(ms, here, show) case _ => [(here, show(xs[0]))];
      var headLeaves: seq<(string, string)> :=
        match xs[0] case JObject(ms) => MembersLeaves(ms, here, show) case _ => [(here, show(xs[0]))];
      assert ListItems(xs, key, start, show) == headItems + ListItems(xs[1..], key, start + 1, show);
      assert ListLeaves(xs, key, start, show) == headLeaves + ListLeaves(xs[1..], key, start + 1, show);
      match xs[0] {
        case JObject(ms) =>
          LastValueOfFromItems(MembersItems(ms, here, show), k);
          MembersItemsAgree(ms, here, show, k);
        case _ =>
      }
      ListItemsAgree(xs[1..], key, start + 1, show, k);
      LastValueAppend(headItems, ListItems(xs[1..], key, start + 1, show), k);
      LastValueAppend(headLeaves, ListLeaves(xs[1..], key, start + 1, show), k);
    }
  }

  /** Every path starts with the given prefix. */
  ghost predicate PathsUnder(items: seq<(string, string)>, prefix: string)
  {
    forall i :: 0 <= i < |items| ==> prefix <= items[i].0
  }

  lemma PathsUnderAppend(a: seq<(string, string)>, b: seq<(string, string)>, prefix: string)
    requires PathsUnder(a, prefix) && PathsUnder(b, prefix)
    ensures PathsUnder(a + b, prefix)
  {
    forall i | 0 <= i < |a + b| ensures prefix <= (a + b)[i].0 {
      if i >= |a| {
        assert (a + b)[i] == b[i - |a|];
      }
    }
  }

  /** A prefix of a child key is a prefix of everything below it. */
  lemma PrefixOfChildKey(prefix: string, parent: string, k: string)
    requires prefix <= parent
    ensures prefix <= ChildKey(parent, k)
  {
    if parent != "" {
      assert ChildKey(parent, k)[..|parent|] == parent;
    }
  }

  /** Every leaf under a member lies under the member's own path. */
  lemma {:induction false} MemberLeavesUnderKey(m: Member, parent: string, show: Json -> string)
    ensures PathsUnder(MemberLeaves(m, parent, show), ChildKey(parent, m.key))
    decreases m
  {
    var key := ChildKey(parent, m.key);
    match m.value
    case JObject(ms) =>
      MembersLeavesUnder(ms, key, key, show);
    case JList(xs) =>
      ListLeavesUnder(xs, key, 0, show);
    case _ =>
  }

  /** Every leaf of the members lies under `prefix` when `parent` does. */
  lemma {:induction false} MembersLeavesUnder(members: seq<Member>, parent: string, prefix: string, show: Json -> string)
    requires prefix <= parent
    ensures PathsUnder(MembersLeaves(members, parent, show), prefix)
    decreases members
  {
    if |members| > 0 {
      MemberLeavesUnderKey(members[0], parent, show);
      PrefixOfChildKey(prefix, parent, members[0].key);
      var key := ChildKey(parent, members[0].key);
      assert key[..|prefix|] == prefix;
      MembersLeavesUnder(members[1..], parent, prefix, show);
      PathsUnderAppend(MemberLeaves(members[0], parent, show), MembersLeaves(members[1..], parent, show), prefix);
    }
  }

  lemma {:induction false} ListLeavesUnder(xs: seq<Json>, key: string, start: nat, show: Json -> string)
    ensures PathsUnder(ListLeaves(xs, key, start, show), key)
    decreases xs
  {
    if |xs| > 0 {
      var here := IndexKey(key, start);
      assert here[..|key|] == key;
      var head: seq<(string, string)> :=
        match xs[0] case JObject(ms) => MembersLeaves(ms, here, show) case _ => [(here, show(xs[0]))];
      match xs[0] {
        case JObject(ms) =>
          MembersLeavesUnder(ms, here, key, show);
        case _ =>
      }
      ListLeavesUnder(xs[1..], key, start + 1, show);
      PathsUnderAppend(head, ListLeaves(xs[1..], key, start + 1, show), key);
    }
  }

  /** Below a non-empty parent, every flattened path is the parent, a dot,
      and more. */
  lemma FlattenedPathsUnderParent(members: seq<Member>, parent: string, show: Json -> string, k: string)
    requires parent != ""
    requires Get(FlattenDict(members, parent, show), k).Some?
    ensures parent + "." <= k
  {
    FlattenIsLastLeaf(members, parent, show, k);
    var leaves := MembersLeaves(members, parent, show);
    LastValueFound(leaves, k);
    var i :| 0 <= i < |leaves| && leaves[i].0 == k;
    FlattenMembersUnderDot(members, parent, show);
  }

  lemma {:induction false} FlattenMembersUnderDot(members: seq<Member>, parent: string, show: Json -> string)
    requires parent != ""
    ensures PathsUnder(MembersLeaves(members, parent, show), parent + ".")
    decreases members
  {
    if |members| > 0 {
      MemberLeavesUnderKey(members[0], parent, show);
      var key := ChildKey(parent, members[0].key);
      assert key[..|parent + "."|] == parent + ".";
      FlattenMembersUnderDot(members[1..], parent, show);
      PathsUnderAppend(MemberLeaves(members[0], parent, show), MembersLeaves(members[1..], parent, show), parent + ".");
    }
  }

  /** An empty object or list contributes no row at all. */
  lemma EmptyContainersVanish(k: string, parent: string, show: Json -> string)
    ensures MemberItems(Member(k, JObject([])), parent, show) == []
    ensures MemberItems(Member(k, JList([])), parent, show) == []
  {
    assert MembersItems([], ChildKey(parent, k), show) == [];
  }

  /** A key that itself holds a dot can collide with a nested path:
      `{"p.q": x, "p": {"q": y}}` flattens to the single row `("p.q", str(y))`,
      the nested value overwriting the earlier one in its place. */
  lemma DottedKeyCollision(p: string, q: string, x: Json, y: Json, show: Json -> string)
    requires p != ""
    requires !x.JObject? && !x.JList? && !y.JObject? && !y.JList?
    ensures FlattenDict([Member(p + "." + q, x), Member(p, JObject([Member(q, y)]))], "", show)
         == [(p + "." + q, show(y))]
  {
    var k := p + "." + q;
    var inner := [Member(q, y)];
    assert MembersItems(inner, p, show) == [(k, show(y))] + MembersItems([], p, show);
    assert FromItems([(k, show(y))]) == [(k, show(y))] by {
      assert [(k, show(y))][..0] == [];
      assert PutAll([], [(k, show(y))][..0]) == [];
    }
    assert ChildKey("", p) == p && ChildKey(p, q) == k && ChildKey("", k) == k;
    assert MemberItems(Member(p, JObject(inner)), "", show) == FlattenDict(inner, p, show);
    var ms := [Member(k, x), Member(p, JObject(inner))];
    assert MembersItems(ms[1..], "", show) == [(k, show(y))] + MembersItems([], "", show);
    assert MembersItems(ms, "", show) == [(k, show(x)), (k, show(y))];
    var items := [(k, show(x)), (k, show(y))];
    assert items[..1] == [(k, show(x))];
    assert items[..1][..0] == [];
    assert PutAll([], items[..1]) == [(k, show(x))];
    assert Put([(k, show(x))], k, show(y)) == [(k, show(y))];
  }
}
