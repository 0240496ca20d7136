/**
 * The user and group databases, injected as finite tables, and the lookups id.c makes
 * in them: getpwuid, getgrgid and getpwnam, and its own get_name.
 * Each lookup answers with the FIRST matching record, in table order.
 */
module Accounts {
  import opened Wrappers

  /** A user-database record (struct passwd): uid, primary gid and login name. */
  datatype Account = Account(uid: nat, gid: nat, name: string)

  /** A group-database record (struct group): gid, group name and member login names. */
  datatype GroupRecord = GroupRecord(gid: nat, name: string, members: seq<string>)

  /** Which database get_name consults (enum type). */
  datatype Kind = UserKind | GroupKind

  /** A record search in table order: the index of the first record satisfying `matches`, if any. */
  function FindFirst<T>(s: seq<T>, matches: T -> bool): (r: Option<nat>)
    ensures r.Some? ==> r.value < |s| && matches(s[r.value])
    ensures r.Some? ==> forall j :: 0 <= j < r.value ==> !matches(s[j])
    ensures r.None? ==> forall j :: 0 <= j < |s| ==> !matches(s[j])
    decreases |s|
  {
    if s == [] then None
    else if matches(s[0]) then Some(0)
    else match FindFirst(s[1..], matches)
      case None => None
      case Some(k) => Some(k + 1)
  }

  /** getpwuid: the index of the first record with this uid, if any. */
  function FindUid(users: seq<Account>, uid: nat): Option<nat> {
    FindFirst(users, (u: Account) => u.uid == uid)
  }

  /** getgrgid: the index of the first record with this gid, if any. */
  function FindGid(groups: seq<GroupRecord>, gid: nat): Option<nat> {
    FindFirst(groups, (g: GroupRecord) => g.gid == gid)
  }

  /** getpwnam: the index of the first record with this login name, if any. */
  function FindName(users: seq<Account>, name: string): Option<nat> {
    FindFirst(users, (u: Account) => u.name == name)
  }

  /** get_name: the name of a uid or gid, or None (NULL) when the database has no record for it. */
  function GetName(kind: Kind, id: nat, users: seq<Account>, groups: seq<GroupRecord>): Option<string> {
    match kind
    case GroupKind =>
      (match FindGid(groups, id)
       case Some(i) => Some(groups[i].name)
       case None => None)
    case UserKind =>
      (match FindUid(users, id)
       case Some(i) => Some(users[i].name)
       case None => None)
  }

  /**
   * get_name answers with the name of the first record of the chosen database that
   * carries the id, and with None exactly when no record carries it.
   */
  lemma GetNameFindsFirst(kind: Kind, id: nat, users: seq<Account>, groups: seq<GroupRecord>)
    ensures kind == UserKind ==>
      (GetName(kind, id, users, groups).Some? <==> exists i :: 0 <= i < |users| && users[i].uid == id)
    ensures kind == UserKind && GetName(kind, id, users, groups).Some? ==>
      exists i :: 0 <= i < |users| && users[i].uid == id && users[i].name == GetName(kind, id, users, groups).value
                  && forall j :: 0 <= j < i ==> users[j].uid != id
    ensures kind == GroupKind ==>
      (GetName(kind, id, users, groups).Some? <==> exists i :: 0 <= i < |groups| && groups[i].gid == id)
    ensures kind == GroupKind && GetName(kind, id, users, groups).Some? ==>
      exists i :: 0 <= i < |groups| && groups[i].gid == id && groups[i].name == GetName(kind, id, users, groups).value
                  && forall j :: 0 <= j < i ==> groups[j].gid != id
  {
  }

  /** getpwnam as main uses it: the first account with this login name, if any. */
  function UserByName(users: seq<Account>, name: string): (r: Option<Account>)
    ensures r.Some? ==> r.value in users && r.value.name == name
    ensures r.Some? ==> exists i :: 0 <= i < |users| && users[i] == r.value && forall j :: 0 <= j < i ==> users[j].name != name
    ensures r.None? <==> forall u :: u in users ==> u.name != name
  {
    match FindName(users, name)
    case Some(i) => Some(users[i])
    case None => None
  }
}
