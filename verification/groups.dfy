/**
 * print_groups: the real gid, the effective gid when it differs, then every group of
 * the database whose member list names the user, once per naming, in database order.
 */
module Groups {
  import opened Wrappers
  import opened Accounts
  import opened Format

  /** The character written before every item after the first. */
  function Separator(mode: Display): char {
    if mode == Full then ',' else ' '
  }

  /** `g` once for every entry of `members` equal to `user` (exact string equality). */
  function Matches(user: string, g: GroupRecord, members: seq<string>): seq<GroupRecord>
    decreases |members|
  {
    if members == [] then []
    else
      Matches(user, g, members[..|members| - 1])
      + (if members[|members| - 1] == user then [g] else [])
  }

  /**
   * What one database record contributes for user `user`: nothing when its gid is the
   * real or the effective gid, otherwise the record once per naming of `user`.
   */
  function Contribution(user: string, g: GroupRecord, rgid: nat, egid: nat): seq<GroupRecord> {
    if g.gid == rgid || g.gid == egid then [] else Matches(user, g, g.members)
  }

  /** The records the enumeration emits for user `user`, walking the table in order. */
  function Enumerated(user: string, groups: seq<GroupRecord>, rgid: nat, egid: nat): seq<GroupRecord>
    decreases |groups|
  {
    if groups == [] then []
    else Enumerated(user, groups[..|groups| - 1], rgid, egid) + Contribution(user, groups[|groups| - 1], rgid, egid)
  }

  /** The records the enumeration emits for `uid`: none when the uid has no name. */
  function Emitted(uid: nat, rgid: nat, egid: nat, users: seq<Account>, groups: seq<GroupRecord>): seq<GroupRecord> {
    match GetName(UserKind, uid, users, groups)
    case None => []
    case Some(user) => Enumerated(user, groups, rgid, egid)
  }

  /** print_id of every record, in order. */
  function Rendered(items: seq<GroupRecord>, mode: Display): (r: seq<string>)
    ensures |r| == |items|
  {
    seq(|items|, i requires 0 <= i < |items| => PrintId(Some(items[i].name), items[i].gid, mode))
  }

  /** `out` followed, for each part in turn, by `sep` and the part. */
  function AppendAll(out: string, parts: seq<string>, sep: char): string
    decreases |parts|
  {
    if parts == [] then out
    else AppendAll(out, parts[..|parts| - 1], sep) + [sep] + parts[|parts| - 1]
  }

  /** The part of print_groups written before the user's name is looked up. */
  function PrimaryPart(rgid: nat, egid: nat, mode: Display, users: seq<Account>, groups: seq<GroupRecord>): string {
    (if mode == Full then " groups=" else [])
    + PrintId(GetName(GroupKind, rgid, users, groups), rgid, mode)
    + (if rgid != egid then [Separator(mode)] + PrintId(GetName(GroupKind, egid, users, groups), egid, mode) else [])
  }

  /** Everything print_groups(uid, rgid, egid, mode) writes. */
  function GroupsOutput(uid: nat, rgid: nat, egid: nat, mode: Display,
                        users: seq<Account>, groups: seq<GroupRecord>): string
  {
    AppendAll(PrimaryPart(rgid, egid, mode, users, groups), Rendered(Emitted(uid, rgid, egid, users, groups), mode), Separator(mode))
  }

  /** print_groups, with the group-database cursor as a loop over the table. */
  method PrintGroups(uid: nat, rgid: nat, egid: nat, mode: Display,
                     users: seq<Account>, groups: seq<GroupRecord>) returns (out: string)
    ensures out == GroupsOutput(uid, rgid, egid, mode, users, groups)
  {
    out := PrimaryPart(rgid, egid, mode, users, groups);
    var separator := Separator(mode);

    var name := GetName(UserKind, uid, users, groups);
    if name.None? {
      return;
    }
    var user := name.value;
    ghost var head := out;
    var i := 0;
    while i < |groups|
      invariant 0 <= i <= |groups|
      invariant out == AppendAll(head, Rendered(Enumerated(user, groups[..i], rgid, egid), mode), separator)
    {
      var g := groups[i];
      EnumeratedStep(user, groups, i, rgid, egid);
      if g.gid == rgid || g.gid == egid {
        i := i + 1;
        continue;
      }
      ghost var done := Enumerated(user, groups[..i], rgid, egid);
      var j := 0;
      assert done + Matches(user, g, g.members[..0]) == done;
      while j < |g.members|
        invariant 0 <= j <= |g.members|
        invariant out == AppendAll(head, Rendered(done + Matches(user, g, g.members[..j]), mode), separator)
      {
        ghost var before := done + Matches(user, g, g.members[..j]);
        MatchesStep(done, user, g, g.members, j);
        if g.members[j] == user {
          RenderedSnoc(before, g, mode);
          AppendAllSnoc(head, Rendered(before, mode), PrintId(Some(g.name), g.gid, mode), separator);
          out := out + [separator] + PrintId(Some(g.name), g.gid, mode);
        }
        j := j + 1;
      }
      assert g.members[..j] == g.members;
      i := i + 1;
    }
    assert groups[..i] == groups;
  }

  lemma EnumeratedStep(user: string, groups: seq<GroupRecord>, i: nat, rgid: nat, egid: nat)
    requires i < |groups|
    ensures groups[i].gid == rgid || groups[i].gid == egid ==>
      Enumerated(user, groups[..i + 1], rgid, egid) == Enumerated(user, groups[..i], rgid, egid)
    ensures !(groups[i].gid == rgid || groups[i].gid == egid) ==>
      Enumerated(user, groups[..i + 1], rgid, egid) == Enumerated(user, groups[..i], rgid, egid) + Matches(user, groups[i], groups[i].members)
  {
    assert groups[..i + 1][..i] == groups[..i];
    var done := Enumerated(user, groups[..i], rgid, egid);
    assert done + [] == done;
  }

  lemma MatchesStep(done: seq<GroupRecord>, user: string, g: GroupRecord, members: seq<string>, j: nat)
    requires j < |members|
    ensures members[j] == user ==>
      done + Matches(user, g, members[..j + 1]) == (done + Matches(user, g, members[..j])) + [g]
    ensures members[j] != user ==>
      done + Matches(user, g, members[..j + 1]) == done + Matches(user, g, members[..j])
  {
    assert members[..j + 1][..j] == members[..j];
    var m := Matches(user, g, members[..j]);
    assert m + [] == m;
    assert done + (m + [g]) == (done + m) + [g];
  }

  lemma RenderedSnoc(items: seq<GroupRecord>, g: GroupRecord, mode: Display)
    ensures Rendered(items + [g], mode) == Rendered(items, mode) + [PrintId(Some(g.name), g.gid, mode)]
  {
  }

  lemma AppendAllSnoc(out: string, parts: seq<string>, p: string, sep: char)
    ensures AppendAll(out, parts + [p], sep) == AppendAll(out, parts, sep) + [sep] + p
  {
    assert (parts + [p])[..|parts|] == parts;
  }

  // ---------------------------------------------------------------------------
  // What the enumeration emits

  /** Every emitted record is a database record naming the user, and never the real or effective gid. */
  lemma EnumeratedFiltered(user: string, groups: seq<GroupRecord>, rgid: nat, egid: nat)
    ensures forall g :: g in Enumerated(user, groups, rgid, egid) ==>
      g in groups && user in g.members && g.gid != rgid && g.gid != egid
  {
    forall g | g in Enumerated(user, groups, rgid, egid)
      ensures g in groups && user in g.members && g.gid != rgid && g.gid != egid
    {
      EnumeratedCount(user, groups, rgid, egid, g);
      PositiveFactors(multiset(groups)[g], multiset(g.members)[user]);
    }
  }

  lemma PositiveFactors(c: nat, m: nat)
    requires c * m > 0
    ensures c > 0 && m > 0
  {
  }

  /** The member scan emits `g` and nothing else, once per entry equal to `user`. */
  lemma {:induction false} MatchesCount(user: string, g: GroupRecord, members: seq<string>, h: GroupRecord)
    ensures multiset(Matches(user, g, members))[h] == if g == h then multiset(members)[user] else 0
    decreases |members|
  {
    if members != [] {
      var init := members[..|members| - 1];
      MatchesCount(user, g, init, h);
      assert members == init + [members[|members| - 1]];
    }
  }

  /**
   * Each record not carrying the real or effective gid is emitted once per naming of
   * the user in its member list, and as often again as it occurs in the database.
   */
  lemma {:induction false} EnumeratedCount(user: string, groups: seq<GroupRecord>, rgid: nat, egid: nat, g: GroupRecord)
    ensures multiset(Enumerated(user, groups, rgid, egid))[g] ==
      if g.gid == rgid || g.gid == egid then 0 else multiset(groups)[g] * multiset(g.members)[user]
    decreases |groups|
  {
    if groups != [] {
      var init := groups[..|groups| - 1];
      var last := groups[|groups| - 1];
      EnumeratedCountStep(user, groups, rgid, egid, g);
      EnumeratedCount(user, init, rgid, egid, g);
      MatchesCount(user, last, last.members, g);
      CountLast(groups, g);
      MulSucc(multiset(init)[g], multiset(g.members)[user]);
    }
  }

  lemma EnumeratedCountStep(user: string, groups: seq<GroupRecord>, rgid: nat, egid: nat, g: GroupRecord)
    requires groups != []
    ensures multiset(Enumerated(user, groups, rgid, egid))[g] ==
      multiset(Enumerated(user, groups[..|groups| - 1], rgid, egid))[g] + multiset(Contribution(user, groups[|groups| - 1], rgid, egid))[g]
  {
  }

  lemma CountLast(groups: seq<GroupRecord>, g: GroupRecord)
    requires groups != []
    ensures multiset(groups)[g] == multiset(groups[..|groups| - 1])[g] + (if groups[|groups| - 1] == g then 1 else 0)
  {
    assert groups == groups[..|groups| - 1] + [groups[|groups| - 1]];
  }

  lemma MulSucc(c: nat, m: nat)
    ensures (c + 1) * m == c * m + m
  {
  }

  /** The enumeration keeps database order: the records of an earlier part come first. */
  lemma {:induction false} EnumeratedAppend(user: string, a: seq<GroupRecord>, b: seq<GroupRecord>, rgid: nat, egid: nat)
    ensures Enumerated(user, a + b, rgid, egid) == Enumerated(user, a, rgid, egid) + Enumerated(user, b, rgid, egid)
    decreases |b|
  {
    if b == [] {
      assert a + b == a;
    } else {
      var init := b[..|b| - 1];
      var last := b[|b| - 1];
      assert (a + b)[..|a + b| - 1] == a + init;
      assert (a + b)[|a + b| - 1] == last;
      EnumeratedAppend(user, a, init, rgid, egid);
      ConcatAssoc(Enumerated(user, a, rgid, egid), Enumerated(user, init, rgid, egid), Contribution(user, last, rgid, egid));
    }
  }

  lemma ConcatAssoc(x: seq<GroupRecord>, y: seq<GroupRecord>, z: seq<GroupRecord>)
    ensures (x + y) + z == x + (y + z)
  {
  }

  /** When the uid has no name in the user database, nothing is enumerated. */
  lemma NoNameNoEnumeration(uid: nat, rgid: nat, egid: nat, mode: Display,
                            users: seq<Account>, groups: seq<GroupRecord>)
    requires forall i :: 0 <= i < |users| ==> users[i].uid != uid
    ensures GroupsOutput(uid, rgid, egid, mode, users, groups) == PrimaryPart(rgid, egid, mode, users, groups)
  {
    GetNameFindsFirst(UserKind, uid, users, groups);
  }

  // ---------------------------------------------------------------------------
  // The whole line as a separated list

  /** `parts` joined with `sep` between neighbours. */
  function Join(parts: seq<string>, sep: char): string
    decreases |parts|
  {
    if parts == [] then []
    else if |parts| == 1 then parts[0]
    else parts[0] + [sep] + Join(parts[1..], sep)
  }

  lemma {:induction false} JoinSnoc(parts: seq<string>, p: string, sep: char)
    requires parts != []
    ensures Join(parts + [p], sep) == Join(parts, sep) + [sep] + p
    decreases |parts|
  {
    if |parts| == 1 {
      assert (parts + [p])[1..] == [p];
    } else {
      assert (parts + [p])[1..] == parts[1..] + [p];
      JoinSnoc(parts[1..], p, sep);
    }
  }

  /** Appending parts one by one after a non-empty list joins them all. */
  lemma {:induction false} AppendAllJoin(first: seq<string>, parts: seq<string>, sep: char)
    requires first != []
    ensures Join(first + parts, sep) == AppendAll(Join(first, sep), parts, sep)
    decreases |parts|
  {
    if parts == [] {
      assert first + parts == first;
    } else {
      var init := parts[..|parts| - 1];
      var p := parts[|parts| - 1];
      AppendAllJoin(first, init, sep);
      assert first + parts == (first + init) + [p];
      JoinSnoc(first + init, p, sep);
    }
  }

  /** Appending after a prefix is the prefix followed by appending after the rest. */
  lemma {:induction false} AppendAllPrefix(prefix: string, out: string, parts: seq<string>, sep: char)
    ensures AppendAll(prefix + out, parts, sep) == prefix + AppendAll(out, parts, sep)
    decreases |parts|
  {
    if parts != [] {
      AppendAllPrefix(prefix, out, parts[..|parts| - 1], sep);
    }
  }

  /** The texts print_groups lists: the real gid, the effective gid if it differs, the enumerated groups. */
  function Listed(uid: nat, rgid: nat, egid: nat, mode: Display,
                  users: seq<Account>, groups: seq<GroupRecord>): seq<string>
  {
    PrimaryItems(rgid, egid, mode, users, groups) + Rendered(Emitted(uid, rgid, egid, users, groups), mode)
  }

  /** The real gid, and the effective gid when it differs. */
  function PrimaryItems(rgid: nat, egid: nat, mode: Display, users: seq<Account>, groups: seq<GroupRecord>): seq<string> {
    [PrintId(GetName(GroupKind, rgid, users, groups), rgid, mode)]
    + (if rgid != egid then [PrintId(GetName(GroupKind, egid, users, groups), egid, mode)] else [])
  }

  lemma PrimaryPartJoin(rgid: nat, egid: nat, mode: Display, users: seq<Account>, groups: seq<GroupRecord>)
    ensures PrimaryItems(rgid, egid, mode, users, groups) != []
    ensures PrimaryPart(rgid, egid, mode, users, groups) ==
      (if mode == Full then " groups=" else []) + Join(PrimaryItems(rgid, egid, mode, users, groups), Separator(mode))
  {
    var r := PrintId(GetName(GroupKind, rgid, users, groups), rgid, mode);
    var e := PrintId(GetName(GroupKind, egid, users, groups), egid, mode);
    if rgid != egid {
      JoinSnoc([r], e, Separator(mode));
      assert PrimaryItems(rgid, egid, mode, users, groups) == [r] + [e];
    } else {
      assert PrimaryItems(rgid, egid, mode, users, groups) == [r];
    }
  }

  /**
   * print_groups writes ` groups=` exactly in FULL mode, then the real gid, the
   * effective gid if it differs and the enumerated groups, joined by `,` in FULL
   * mode and by a single space otherwise.
   */
  lemma GroupsOutputIsList(uid: nat, rgid: nat, egid: nat, mode: Display,
                           users: seq<Account>, groups: seq<GroupRecord>)
    ensures GroupsOutput(uid, rgid, egid, mode, users, groups) ==
      (if mode == Full then " groups=" else []) + Join(Listed(uid, rgid, egid, mode, users, groups), if mode == Full then ',' else ' ')
  {
    var sep := Separator(mode);
    var first := PrimaryItems(rgid, egid, mode, users, groups);
    var parts := Rendered(Emitted(uid, rgid, egid, users, groups), mode);
    PrimaryPartJoin(rgid, egid, mode, users, groups);
    AppendAllJoin(first, parts, sep);
    AppendAllPrefix(if mode == Full then " groups=" else [], Join(first, sep), parts, sep);
  }

  /** When the real and effective gids coincide the gid is listed once, before the enumerated groups. */
  lemma SameGidListedOnce(uid: nat, gid: nat, mode: Display,
                          users: seq<Account>, groups: seq<GroupRecord>)
    ensures GroupsOutput(uid, gid, gid, mode, users, groups) ==
      (if mode == Full then " groups=" else []) + PrintId(GetName(GroupKind, gid, users, groups), gid, mode)
      + AppendAll([], Rendered(Emitted(uid, gid, gid, users, groups), mode), Separator(mode))
  {
    var head := (if mode == Full then " groups=" else []) + PrintId(GetName(GroupKind, gid, users, groups), gid, mode);
    assert PrimaryPart(gid, gid, mode, users, groups) == head + [];
    AppendAllPrefix(head, [], Rendered(Emitted(uid, gid, gid, users, groups), mode), Separator(mode));
  }

  // ---------------------------------------------------------------------------
  // Line discipline

  /** True when no name in either table holds a newline. */
  predicate NamesOnOneLine(users: seq<Account>, groups: seq<GroupRecord>) {
    (forall u :: u in users ==> '\n' !in u.name) && (forall g :: g in groups ==> '\n' !in g.name)
  }

  lemma {:induction false} AppendAllNoNewline(out: string, parts: seq<string>, sep: char)
    requires '\n' !in out && sep != '\n'
    requires forall i :: 0 <= i < |parts| ==> '\n' !in parts[i]
    ensures '\n' !in AppendAll(out, parts, sep)
    decreases |parts|
  {
    if parts != [] {
      AppendAllNoNewline(out, parts[..|parts| - 1], sep);
    }
  }

  lemma RenderedNoNewline(items: seq<GroupRecord>, groups: seq<GroupRecord>, mode: Display)
    requires forall g :: g in groups ==> '\n' !in g.name
    requires forall g :: g in items ==> g in groups
    ensures forall i :: 0 <= i < |items| ==> '\n' !in Rendered(items, mode)[i]
  {
    forall i | 0 <= i < |items| ensures '\n' !in Rendered(items, mode)[i] {
      assert items[i] in items;
      NoNewline(Some(items[i].name), items[i].gid, mode);
    }
  }

  /** print_groups never ends the line itself. */
  lemma GroupsOutputNoNewline(uid: nat, rgid: nat, egid: nat, mode: Display,
                              users: seq<Account>, groups: seq<GroupRecord>)
    requires NamesOnOneLine(users, groups)
    ensures '\n' !in GroupsOutput(uid, rgid, egid, mode, users, groups)
  {
    PrimaryPartNoNewline(rgid, egid, mode, users, groups);
    var items := Emitted(uid, rgid, egid, users, groups);
    var name := GetName(UserKind, uid, users, groups);
    if name.Some? {
      EnumeratedFiltered(name.value, groups, rgid, egid);
    }
    RenderedNoNewline(items, groups, mode);
    AppendAllNoNewline(PrimaryPart(rgid, egid, mode, users, groups), Rendered(items, mode), Separator(mode));
  }

  lemma PrimaryPartNoNewline(rgid: nat, egid: nat, mode: Display, users: seq<Account>, groups: seq<GroupRecord>)
    requires NamesOnOneLine(users, groups)
    ensures '\n' !in PrimaryPart(rgid, egid, mode, users, groups)
  {
    IdNoNewline(GroupKind, rgid, mode, users, groups);
    IdNoNewline(GroupKind, egid, mode, users, groups);
  }

  /** print_id of a looked-up uid or gid stays on one line. */
  lemma IdNoNewline(kind: Kind, id: nat, mode: Display, users: seq<Account>, groups: seq<GroupRecord>)
    requires NamesOnOneLine(users, groups)
    ensures '\n' !in PrintId(GetName(kind, id, users, groups), id, mode)
  {
    var r := GetName(kind, id, users, groups);
    GetNameFindsFirst(kind, id, users, groups);
    if r.Some? {
      if kind == UserKind {
        var i :| 0 <= i < |users| && users[i].uid == id && users[i].name == r.value;
        assert users[i] in users;
      } else {
        var i :| 0 <= i < |groups| && groups[i].gid == id && groups[i].name == r.value;
        assert groups[i] in groups;
      }
    }
    NoNewline(r, id, mode);
  }
}
