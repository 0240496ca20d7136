/**
 * main: the option loop, the operand check, the switch to a named user's ids and the
 * four output shapes. The process's ids and both databases are parameters; standard
 * output is the returned string and the exit status a number.
 */
module Driver {
  import opened Wrappers
  import opened Accounts
  import opened Format
  import opened Groups

  /** enum mode: the default line, -u, -g or -G. */
  datatype Selector = Default | UidOnly | GidOnly | AllGids

  /** The calling process's real and effective ids (getuid, geteuid, getgid, getegid). */
  datatype Process = Process(ruid: nat, euid: nat, rgid: nat, egid: nat)

  /** The variables the option loop updates: mode, dmode, uid and gid. */
  datatype Settings = Settings(selector: Selector, display: Display, uid: nat, gid: nat)

  /** Why a run ends with status 1 (the diagnostic written to standard error). */
  datatype Failure = BadOption | TooManyOperands | UnknownUser(name: string)

  /** Exit status, standard output and the failure reported, if any. */
  datatype Outcome = Outcome(status: nat, stdout: string, failure: Option<Failure>)

  /** The letters the option string "Ggunr" accepts. */
  predicate IsOption(c: char) {
    c == 'G' || c == 'g' || c == 'u' || c == 'n' || c == 'r'
  }

  /** The selector a letter chooses; Default for the letters that choose none. */
  function SelectorOf(c: char): Selector {
    if c == 'G' then AllGids
    else if c == 'g' then GidOnly
    else if c == 'u' then UidOnly
    else Default
  }

  /** The settings before any option is read: NUMBERS, the default line, effective ids. */
  function Initial(p: Process): Settings {
    Settings(Default, Numbers, p.euid, p.egid)
  }

  /** One case of the option switch; None for a letter the switch rejects. */
  function Step(p: Process, s: Settings, c: char): Option<Settings> {
    if c == 'G' then Some(s.(selector := AllGids))
    else if c == 'g' then Some(s.(selector := GidOnly))
    else if c == 'u' then Some(s.(selector := UidOnly))
    else if c == 'n' then Some(s.(display := Names))
    else if c == 'r' then Some(s.(uid := p.ruid, gid := p.rgid))
    else None
  }

  /** The settings after the option letters `opts`, in order; None once a letter is rejected. */
  function Scan(p: Process, opts: seq<char>): Option<Settings>
    decreases |opts|
  {
    if opts == [] then Some(Initial(p))
    else
      match Scan(p, opts[..|opts| - 1])
      case None => None
      case Some(s) => Step(p, s, opts[|opts| - 1])
  }

  /** The default line, before the final newline. */
  function DefaultLine(ids: Process, users: seq<Account>, groups: seq<GroupRecord>): string {
    "uid=" + PrintId(GetName(UserKind, ids.ruid, users, groups), ids.ruid, Full)
    + " gid=" + PrintId(GetName(GroupKind, ids.rgid, users, groups), ids.rgid, Full)
    + (if ids.ruid != ids.euid then " euid=" + PrintId(GetName(UserKind, ids.euid, users, groups), ids.euid, Full) else [])
    + (if ids.rgid != ids.egid then " egid=" + PrintId(GetName(GroupKind, ids.egid, users, groups), ids.egid, Full) else [])
    + GroupsOutput(ids.ruid, ids.rgid, ids.egid, Full, users, groups)
  }

  /** What the selected output shape writes, before the final newline. */
  function Report(s: Settings, ids: Process, users: seq<Account>, groups: seq<GroupRecord>): string {
    match s.selector
    case AllGids => GroupsOutput(s.uid, ids.rgid, ids.egid, s.display, users, groups)
    case GidOnly => PrintId(GetName(GroupKind, s.gid, users, groups), s.gid, s.display)
    case UidOnly => PrintId(GetName(UserKind, s.uid, users, groups), s.uid, s.display)
    case Default => DefaultLine(ids, users, groups)
  }

  /** The outcome of running id with option letters `opts` and operands `operands`. */
  function Id(p: Process, opts: seq<char>, operands: seq<string>,
              users: seq<Account>, groups: seq<GroupRecord>): Outcome
  {
    match Scan(p, opts)
    case None => Outcome(1, [], Some(BadOption))
    case Some(s) =>
      if |operands| > 1 then Outcome(1, [], Some(TooManyOperands))
      else if |operands| == 1 then
        match UserByName(users, operands[0])
        case None => Outcome(1, [], Some(UnknownUser(operands[0])))
        case Some(a) =>
          Outcome(0, Report(s.(uid := a.uid, gid := a.gid), Process(a.uid, a.uid, a.gid, a.gid), users, groups) + "\n", None)
      else Outcome(0, Report(s, p, users, groups) + "\n", None)
  }

  /** main, with getopt's result given as the option letters and the operands. */
  method RunId(p: Process, opts: seq<char>, operands: seq<string>,
               users: seq<Account>, groups: seq<GroupRecord>)
    returns (status: nat, stdout: string, failure: Option<Failure>)
    ensures Outcome(status, stdout, failure) == Id(p, opts, operands, users, groups)
  {
    var dmode := Numbers;
    var mode := Default;
    var ruid, euid, rgid, egid := p.ruid, p.euid, p.rgid, p.egid;
    var uid, gid := euid, egid;

    var i := 0;
    while i < |opts|
      invariant 0 <= i <= |opts|
      invariant Scan(p, opts[..i]) == Some(Settings(mode, dmode, uid, gid))
    {
      var c := opts[i];
      assert opts[..i + 1][..i] == opts[..i];
      if c == 'G' {
        mode := AllGids;
      } else if c == 'g' {
        mode := GidOnly;
      } else if c == 'u' {
        mode := UidOnly;
      } else if c == 'n' {
        dmode := Names;
      } else if c == 'r' {
        uid := ruid;
        gid := rgid;
      } else {
        ScanRejects(p, opts);
        return 1, [], Some(BadOption);
      }
      i := i + 1;
    }
    assert opts[..i] == opts;
    ghost var scanned := Settings(mode, dmode, uid, gid);

    if |operands| > 1 {
      return 1, [], Some(TooManyOperands);
    }
    if |operands| == 1 {
      var pwd := UserByName(users, operands[0]);
      if pwd.None? {
        return 1, [], Some(UnknownUser(operands[0]));
      }
      uid, ruid, euid := pwd.value.uid, pwd.value.uid, pwd.value.uid;
      gid, rgid, egid := pwd.value.gid, pwd.value.gid, pwd.value.gid;
    }
    var ids := Process(ruid, euid, rgid, egid);
    ghost var settings := Settings(mode, dmode, uid, gid);
    assert Id(p, opts, operands, users, groups) == Outcome(0, Report(settings, ids, users, groups) + "\n", None);

    if mode == AllGids {
      stdout := PrintGroups(uid, rgid, egid, dmode, users, groups);
    } else if mode == GidOnly {
      stdout := PrintId(GetName(GroupKind, gid, users, groups), gid, dmode);
    } else if mode == UidOnly {
      stdout := PrintId(GetName(UserKind, uid, users, groups), uid, dmode);
    } else {
      stdout := PrintDefault(ids, users, groups);
    }
    stdout := stdout + "\n";
    status, failure := 0, None;
  }

  /** The default-mode branch of main: the labelled ids, then print_groups in FULL mode. */
  method PrintDefault(ids: Process, users: seq<Account>, groups: seq<GroupRecord>) returns (out: string)
    ensures out == DefaultLine(ids, users, groups)
  {
    var ruidName := GetName(UserKind, ids.ruid, users, groups);
    var rgidName := GetName(GroupKind, ids.rgid, users, groups);
    var euidName := GetName(UserKind, ids.euid, users, groups);
    var egidName := GetName(GroupKind, ids.egid, users, groups);
    out := "uid=";
    out := out + PrintId(ruidName, ids.ruid, Full);
    out := out + " gid=";
    out := out + PrintId(rgidName, ids.rgid, Full);
    if ids.ruid != ids.euid {
      out := out + (" euid=" + PrintId(euidName, ids.euid, Full));
    }
    if ids.rgid != ids.egid {
      out := out + (" egid=" + PrintId(egidName, ids.egid, Full));
    }
    var rest := PrintGroups(ids.ruid, ids.rgid, ids.egid, Full, users, groups);
    out := out + rest;
  }

  // ---------------------------------------------------------------------------
  // The option loop

  /** The loop stops with status 1 exactly when some letter is not one of G, g, u, n, r. */
  lemma {:induction false} ScanRejects(p: Process, opts: seq<char>)
    ensures Scan(p, opts).None? <==> exists k :: 0 <= k < |opts| && !IsOption(opts[k])
    decreases |opts|
  {
    if opts != [] {
      var init := opts[..|opts| - 1];
      ScanRejects(p, init);
      if exists k :: 0 <= k < |init| && !IsOption(init[k]) {
        var k :| 0 <= k < |init| && !IsOption(init[k]);
        assert opts[k] == init[k];
      }
      if exists k :: 0 <= k < |opts| && !IsOption(opts[k]) {
        var k :| 0 <= k < |opts| && !IsOption(opts[k]);
        if k < |init| {
          assert init[k] == opts[k];
        }
      }
    }
  }

  /** Without any of G, g and u the selector stays the default line. */
  lemma {:induction false} ScanNoSelector(p: Process, opts: seq<char>)
    requires Scan(p, opts).Some?
    requires forall k :: 0 <= k < |opts| ==> SelectorOf(opts[k]) == Default
    ensures Scan(p, opts).value.selector == Default
    decreases |opts|
  {
    if opts != [] {
      var init := opts[..|opts| - 1];
      assert forall k :: 0 <= k < |init| ==> init[k] == opts[k];
      ScanNoSelector(p, init);
    }
  }

  /** The last of G, g and u decides the selector: later letters n and r leave it alone. */
  lemma {:induction false} ScanLastSelector(p: Process, opts: seq<char>, k: nat)
    requires Scan(p, opts).Some?
    requires k < |opts| && SelectorOf(opts[k]) != Default
    requires forall j :: k < j < |opts| ==> SelectorOf(opts[j]) == Default
    ensures Scan(p, opts).value.selector == SelectorOf(opts[k])
    decreases |opts|
  {
    var init := opts[..|opts| - 1];
    if k < |opts| - 1 {
      assert init[k] == opts[k];
      assert forall j :: k < j < |init| ==> init[j] == opts[j];
      assert SelectorOf(opts[|opts| - 1]) == Default;
      ScanLastSelector(p, init, k);
    }
  }

  /** -n anywhere selects NAMES; otherwise the display stays NUMBERS. */
  lemma {:induction false} ScanDisplay(p: Process, opts: seq<char>)
    requires Scan(p, opts).Some?
    ensures Scan(p, opts).value.display == if 'n' in opts then Names else Numbers
    decreases |opts|
  {
    if opts != [] {
      var init := opts[..|opts| - 1];
      ScanDisplay(p, init);
      assert opts == init + [opts[|opts| - 1]];
    }
  }

  /** -r anywhere makes the reported uid and gid the real ones; otherwise they are the effective ones. */
  lemma {:induction false} ScanIds(p: Process, opts: seq<char>)
    requires Scan(p, opts).Some?
    ensures Scan(p, opts).value.uid == if 'r' in opts then p.ruid else p.euid
    ensures Scan(p, opts).value.gid == if 'r' in opts then p.rgid else p.egid
    decreases |opts|
  {
    if opts != [] {
      var init := opts[..|opts| - 1];
      ScanIds(p, init);
      assert opts == init + [opts[|opts| - 1]];
    }
  }

  /** The process's ids affect the loop's uid and gid only: the letters decide the rest. */
  lemma {:induction false} ScanIgnoresProcess(p: Process, q: Process, opts: seq<char>)
    ensures Scan(p, opts).Some? <==> Scan(q, opts).Some?
    ensures Scan(p, opts).Some? ==>
      Scan(p, opts).value.selector == Scan(q, opts).value.selector
      && Scan(p, opts).value.display == Scan(q, opts).value.display
    decreases |opts|
  {
    if opts != [] {
      ScanIgnoresProcess(p, q, opts[..|opts| - 1]);
    }
  }

  // ---------------------------------------------------------------------------
  // Whole runs

  /** A letter outside G, g, u, n, r ends the run with status 1 and nothing on standard output. */
  lemma BadOptionFails(p: Process, opts: seq<char>, operands: seq<string>,
                       users: seq<Account>, groups: seq<GroupRecord>)
    requires exists k :: 0 <= k < |opts| && !IsOption(opts[k])
    ensures Id(p, opts, operands, users, groups) == Outcome(1, [], Some(BadOption))
  {
    ScanRejects(p, opts);
  }

  /** With every letter accepted, two or more operands end the run with status 1 and nothing on standard output. */
  lemma TooManyOperandsFails(p: Process, opts: seq<char>, operands: seq<string>,
                             users: seq<Account>, groups: seq<GroupRecord>)
    requires forall k :: 0 <= k < |opts| ==> IsOption(opts[k])
    requires |operands| >= 2
    ensures Id(p, opts, operands, users, groups) == Outcome(1, [], Some(TooManyOperands))
  {
    ScanRejects(p, opts);
  }

  /** With every letter accepted, a single operand that names no account ends the run with status 1 and nothing on standard output. */
  lemma UnknownUserFails(p: Process, opts: seq<char>, name: string,
                         users: seq<Account>, groups: seq<GroupRecord>)
    requires forall k :: 0 <= k < |opts| ==> IsOption(opts[k])
    requires forall a :: a in users ==> a.name != name
    ensures Id(p, opts, [name], users, groups) == Outcome(1, [], Some(UnknownUser(name)))
  {
    ScanRejects(p, opts);
  }

  /** A run fails with status 1 and no output, or succeeds with status 0 and output ending in a newline. */
  lemma OutcomeShape(p: Process, opts: seq<char>, operands: seq<string>,
                     users: seq<Account>, groups: seq<GroupRecord>)
    ensures var o := Id(p, opts, operands, users, groups);
      (o.status == 0 || o.status == 1)
      && (o.status == 0 <==> o.failure.None?)
      && (o.status == 1 ==> o.stdout == [])
      && (o.status == 0 ==> |o.stdout| > 0 && o.stdout[|o.stdout| - 1] == '\n')
  {
  }

  /** When no name in the databases holds a newline, a successful run writes exactly one line. */
  lemma SingleLine(p: Process, opts: seq<char>, operands: seq<string>,
                   users: seq<Account>, groups: seq<GroupRecord>)
    requires NamesOnOneLine(users, groups)
    requires Id(p, opts, operands, users, groups).status == 0
    ensures var out := Id(p, opts, operands, users, groups).stdout;
      |out| > 0 && out[|out| - 1] == '\n' && '\n' !in out[..|out| - 1]
  {
    var out := Id(p, opts, operands, users, groups).stdout;
    var s := Scan(p, opts).value;
    if |operands| == 1 {
      var a := UserByName(users, operands[0]).value;
      ReportNoNewline(s.(uid := a.uid, gid := a.gid), Process(a.uid, a.uid, a.gid, a.gid), users, groups);
      assert out[..|out| - 1] == Report(s.(uid := a.uid, gid := a.gid), Process(a.uid, a.uid, a.gid, a.gid), users, groups);
    } else {
      ReportNoNewline(s, p, users, groups);
      assert out[..|out| - 1] == Report(s, p, users, groups);
    }
  }

  lemma ReportNoNewline(s: Settings, ids: Process, users: seq<Account>, groups: seq<GroupRecord>)
    requires NamesOnOneLine(users, groups)
    ensures '\n' !in Report(s, ids, users, groups)
  {
    match s.selector
    case AllGids =>
      GroupsOutputNoNewline(s.uid, ids.rgid, ids.egid, s.display, users, groups);
    case GidOnly =>
      IdNoNewline(GroupKind, s.gid, s.display, users, groups);
    case UidOnly =>
      IdNoNewline(UserKind, s.uid, s.display, users, groups);
    case Default =>
      DefaultLineNoNewline(ids, users, groups);
  }

  lemma DefaultLineNoNewline(ids: Process, users: seq<Account>, groups: seq<GroupRecord>)
    requires NamesOnOneLine(users, groups)
    ensures '\n' !in DefaultLine(ids, users, groups)
  {
    var u := PrintId(GetName(UserKind, ids.ruid, users, groups), ids.ruid, Full);
    var g := PrintId(GetName(GroupKind, ids.rgid, users, groups), ids.rgid, Full);
    var eu := PrintId(GetName(UserKind, ids.euid, users, groups), ids.euid, Full);
    var eg := PrintId(GetName(GroupKind, ids.egid, users, groups), ids.egid, Full);
    var rest := GroupsOutput(ids.ruid, ids.rgid, ids.egid, Full, users, groups);
    IdNoNewline(UserKind, ids.ruid, Full, users, groups);
    IdNoNewline(GroupKind, ids.rgid, Full, users, groups);
    IdNoNewline(UserKind, ids.euid, Full, users, groups);
    IdNoNewline(GroupKind, ids.egid, Full, users, groups);
    GroupsOutputNoNewline(ids.ruid, ids.rgid, ids.egid, Full, users, groups);
    var euField: string := if ids.ruid != ids.euid then " euid=" + eu else [];
    var egField: string := if ids.rgid != ids.egid then " egid=" + eg else [];
    LabelledNoNewline(u, g, euField, egField, rest);
    assert DefaultLine(ids, users, groups) == "uid=" + u + " gid=" + g + euField + egField + rest;
  }

  lemma LabelledNoNewline(u: string, g: string, eu: string, eg: string, rest: string)
    requires '\n' !in u && '\n' !in g && '\n' !in eu && '\n' !in eg && '\n' !in rest
    ensures '\n' !in "uid=" + u + " gid=" + g + eu + eg + rest
  {
  }

  /**
   * Without a selector letter, -n and -r are accepted and change nothing: the default
   * line is always written in FULL mode from both the real and the effective ids.
   */
  lemma DefaultIgnoresModifiers(p: Process, opts: seq<char>, operands: seq<string>,
                                users: seq<Account>, groups: seq<GroupRecord>)
    requires forall k :: 0 <= k < |opts| ==> IsOption(opts[k]) && SelectorOf(opts[k]) == Default
    ensures Id(p, opts, operands, users, groups) == Id(p, [], operands, users, groups)
  {
    ScanRejects(p, opts);
    ScanNoSelector(p, opts);
  }

  /**
   * For a named user the process's ids play no part, -r included: the account's uid and
   * gid stand for both the real and the effective ids.
   */
  lemma NamedUserIgnoresProcess(p: Process, q: Process, opts: seq<char>, name: string,
                                users: seq<Account>, groups: seq<GroupRecord>)
    ensures Id(p, opts, [name], users, groups) == Id(q, opts, [name], users, groups)
  {
    ScanIgnoresProcess(p, q, opts);
  }

  /**
   * A named user's real and effective ids coincide, so its default line has no euid=
   * and no egid= field, and its groups segment lists its gid once.
   */
  lemma NamedUserDefaultLine(p: Process, opts: seq<char>, name: string,
                             users: seq<Account>, groups: seq<GroupRecord>)
    requires forall k :: 0 <= k < |opts| ==> IsOption(opts[k]) && SelectorOf(opts[k]) == Default
    requires UserByName(users, name).Some?
    ensures var a := UserByName(users, name).value;
      Id(p, opts, [name], users, groups) ==
        Outcome(0, "uid=" + PrintId(GetName(UserKind, a.uid, users, groups), a.uid, Full)
                   + " gid=" + PrintId(GetName(GroupKind, a.gid, users, groups), a.gid, Full)
                   + GroupsOutput(a.uid, a.gid, a.gid, Full, users, groups)
                   + "\n", None)
  {
    ScanRejects(p, opts);
    ScanNoSelector(p, opts);
    var a := UserByName(users, name).value;
    var ids := Process(a.uid, a.uid, a.gid, a.gid);
    assert Id(p, opts, [name], users, groups) == Outcome(0, DefaultLine(ids, users, groups) + "\n", None);
    SameIdsDefaultLine(ids, users, groups);
  }

  /** With equal real and effective ids the default line has no euid= and no egid= field. */
  lemma SameIdsDefaultLine(ids: Process, users: seq<Account>, groups: seq<GroupRecord>)
    requires ids.ruid == ids.euid && ids.rgid == ids.egid
    ensures DefaultLine(ids, users, groups) ==
      "uid=" + PrintId(GetName(UserKind, ids.ruid, users, groups), ids.ruid, Full)
      + " gid=" + PrintId(GetName(GroupKind, ids.rgid, users, groups), ids.rgid, Full)
      + GroupsOutput(ids.ruid, ids.rgid, ids.egid, Full, users, groups)
  {
  }

  /** With no operand and -u the last selector, the line is the uid (real with -r), as a name with -n. */
  lemma UidLine(p: Process, opts: seq<char>, k: nat, users: seq<Account>, groups: seq<GroupRecord>)
    requires forall j :: 0 <= j < |opts| ==> IsOption(opts[j])
    requires k < |opts| && opts[k] == 'u'
    requires forall j :: k < j < |opts| ==> SelectorOf(opts[j]) == Default
    ensures var uid := if 'r' in opts then p.ruid else p.euid;
      Id(p, opts, [], users, groups) ==
        Outcome(0, PrintId(GetName(UserKind, uid, users, groups), uid, if 'n' in opts then Names else Numbers) + "\n", None)
  {
    ScanRejects(p, opts);
    ScanLastSelector(p, opts, k);
    ScanDisplay(p, opts);
    ScanIds(p, opts);
  }

  /** With no operand and -g the last selector, the line is the gid (real with -r), as a name with -n. */
  lemma GidLine(p: Process, opts: seq<char>, k: nat, users: seq<Account>, groups: seq<GroupRecord>)
    requires forall j :: 0 <= j < |opts| ==> IsOption(opts[j])
    requires k < |opts| && opts[k] == 'g'
    requires forall j :: k < j < |opts| ==> SelectorOf(opts[j]) == Default
    ensures var gid := if 'r' in opts then p.rgid else p.egid;
      Id(p, opts, [], users, groups) ==
        Outcome(0, PrintId(GetName(GroupKind, gid, users, groups), gid, if 'n' in opts then Names else Numbers) + "\n", None)
  {
    ScanRejects(p, opts);
    ScanLastSelector(p, opts, k);
    ScanDisplay(p, opts);
    ScanIds(p, opts);
  }

  /**
   * With no operand and -G the last selector, the line is print_groups for the uid (real with -r),
   * listing the real and effective gids of the process whether or not -r is given.
   */
  lemma AllGidsLine(p: Process, opts: seq<char>, k: nat, users: seq<Account>, groups: seq<GroupRecord>)
    requires forall j :: 0 <= j < |opts| ==> IsOption(opts[j])
    requires k < |opts| && opts[k] == 'G'
    requires forall j :: k < j < |opts| ==> SelectorOf(opts[j]) == Default
    ensures var uid := if 'r' in opts then p.ruid else p.euid;
      Id(p, opts, [], users, groups) ==
        Outcome(0, GroupsOutput(uid, p.rgid, p.egid, if 'n' in opts then Names else Numbers, users, groups) + "\n", None)
  {
    ScanRejects(p, opts);
    ScanLastSelector(p, opts, k);
    ScanDisplay(p, opts);
    ScanIds(p, opts);
  }
}
