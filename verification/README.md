# id — a verified model

This project models `id.c`, a small implementation of the POSIX `id` utility. `id`
reports the user and group ids of the calling process, or of a named account. The
model covers:

- the name lookup `get_name`;
- the formatter `print_id`, with its three display modes FULL `id(name)`, NAMES and NUMBERS;
- the group-list writer `print_groups`;
- `main`: the option loop, the operand check, the switch to a named account's ids and
  the four output shapes (the default line, `-u`, `-g`, `-G`).

Nothing that the C code gets from the operating system is read here. Everything is a
parameter:

- the process's real and effective ids (`Driver.Process`);
- the user database (`seq<Accounts.Account>`);
- the group database (`seq<Accounts.GroupRecord>`);
- what `getopt` scanned: a sequence of option letters and a sequence of operands.

`getpwuid`, `getgrgid` and `getpwnam` return the first matching record in table order.
Group enumeration walks the table from first to last.

A run is the function `Driver.Id`. It maps these inputs to an exit status, the text
written to standard output and the failure reported on standard error, if any. The
imperative parts of the source are methods proved equal to their specification
functions:

- `Groups.PrintGroups` (the `while (getgrent())` loop with the nested member loop);
- `Driver.RunId` (the `getopt` loop and the dispatch).

Layout: `wrappers.dfy` (Option), `decimal.dfy` (`%ju`), `accounts.dfy` (the databases),
`format.dfy` (`print_id`), `groups.dfy` (`print_groups`), `driver.dfy` (`main`).

Behaviour of `id.c` worth noting:

- No flag combination is rejected. `-n` or `-r` without a selector, `-G` with `-r`, and
  repeated selectors are all accepted (the validation is only a TODO at id.c:150).
  The last of `-G`, `-g` and `-u` wins.
- The group enumeration skips every group whose gid is the real or the effective gid
  (id.c:94), even when its member list names the user.
- `print_groups` always writes the real gid first, and the effective gid if it differs
  (id.c:77-84). So ` groups=` always lists at least one gid in the default line, and `-G`
  lists these gids too.
- The default line ignores `-n` and `-r` (id.c:174-191). It is always written in FULL mode
  from both the real and the effective ids (`Driver.DefaultIgnoresModifiers`).
- In NAMES mode an account whose name is the empty string prints as the empty string
  (id.c:62-66). NAMES output is non-empty only for non-empty names (`Format.PrintId`).

## Model

| member | source | states |
|---|---|---|
| `Decimal.Render` | id.c:59 | `%ju` writes a non-empty run of decimal digits, with no leading zero unless the value is 0 |
| `Decimal.ParseRender` | id.c:59 | reading the written digits back gives the id that was printed |
| `Decimal.RenderInjective` | id.c:59 | two ids are written the same exactly when they are equal |
| `Accounts.FindFirst` | id.c:42-50 | the table search behind getgrgid, getpwuid and getpwnam finds the first record that matches, or reports that no record matches |
| `Accounts.GetNameFindsFirst` | id.c:39-54 | get_name returns a name exactly when the chosen database has a record for the id, and it is the first such record's name; otherwise NULL |
| `Accounts.UserByName` | id.c:158-163 | the operand resolves to the first account with that exact name, and fails exactly when no account has it |
| `Format.PrintId` | id.c:56-69 | NUMBERS writes exactly the decimal id; NAMES writes the name, or the decimal id when there is none; FULL writes the decimal id followed by `(name)` exactly when a name exists; NAMES output is non-empty unless the name itself is empty |
| `Format.NumericReadsBack` | id.c:58-60 | in NUMBERS mode, and in NAMES mode without a name, the output is all digits and parses back to the id |
| `Format.FullReadsBack` | id.c:58-64 | in FULL mode the leading digits of the output parse back to the id, whether or not a name follows |
| `Format.NoNewline` | id.c:56-69 | print_id writes no newline unless the name contains one |
| `Groups.PrintGroups` | id.c:71-106 | the loop over the group table writes exactly `GroupsOutput`: the prefix, the real gid, the effective gid if it differs, then every non-primary group once per naming of the user |
| `Groups.GroupsOutputIsList` | id.c:73-101 | the output is ` groups=` exactly in FULL mode, followed by the real gid, the effective gid only when it differs, and the enumerated groups, joined by `,` in FULL mode and by one space otherwise |
| `Groups.EnumeratedFiltered` | id.c:93-103 | every enumerated group is a database record whose member list names the user, and its gid is neither the real nor the effective gid |
| `Groups.MatchesCount` | id.c:98-103 | the member scan emits the group once per member entry exactly equal to the user's name, and nothing else |
| `Groups.EnumeratedCount` | id.c:93-103 | a record is emitted zero times when its gid is the real or the effective gid; otherwise once for each naming of the user, times its occurrences in the database |
| `Groups.EnumeratedAppend` | id.c:92-104 | the enumeration keeps database order: the groups of an earlier part of the table come before those of a later part |
| `Groups.NoNameNoEnumeration` | id.c:86-89 | when the uid has no user-database name, only the prefix and the real/effective gids are written |
| `Groups.SameGidListedOnce` | id.c:77-84 | when the real and effective gids coincide, the gid is listed once, before the enumerated groups |
| `Groups.GroupsOutputNoNewline` | id.c:71-106 | print_groups never ends the line when no database name contains a newline |
| `Driver.RunId` | id.c:108-196 | main's option loop, operand check, named-account switch and dispatch produce exactly the status, output and failure of `Id` |
| `Driver.PrintDefault` | id.c:174-191 | the default branch writes `uid=`, ` gid=`, ` euid=` only if the uids differ, ` egid=` only if the gids differ, then the FULL groups segment |
| `Driver.ScanRejects` | id.c:122-147 | the option loop stops with status 1 exactly when some letter is not one of G, g, u, n, r |
| `Driver.ScanNoSelector` | id.c:111-134 | with none of G, g, u the mode stays DEFAULT |
| `Driver.ScanLastSelector` | id.c:122-134 | the last of G, g, u decides the mode; later n and r leave it unchanged |
| `Driver.ScanDisplay` | id.c:110-138 | the display is NAMES exactly when n occurs, and NUMBERS otherwise |
| `Driver.ScanIds` | id.c:116-143 | the reported uid and gid are the real ones exactly when r occurs, and the effective ones otherwise |
| `Driver.ScanIgnoresProcess` | id.c:110-147 | whether the letters are accepted, and the mode and display they give, do not depend on the process's ids |
| `Driver.BadOptionFails` | id.c:145-146 | an unknown letter gives status 1, writes nothing to standard output and reports a bad option |
| `Driver.TooManyOperandsFails` | id.c:152-155 | when every letter is one of G, g, u, n, r, two or more operands give status 1, no standard output, and the too-many-operands failure |
| `Driver.UnknownUserFails` | id.c:157-163 | when every letter is one of G, g, u, n, r, a single operand that names no account gives status 1, no standard output, and a failure naming the operand |
| `Driver.OutcomeShape` | id.c:145-195 | status is 0 or 1; it is 0 exactly when no failure is reported; failures write nothing; success output ends with a newline |
| `Driver.SingleLine` | id.c:194-195 | a successful run writes exactly one newline, at the end, when no database name contains a newline |
| `Driver.DefaultIgnoresModifiers` | id.c:174-191 | without a selector, -n and -r are accepted and change nothing in the outcome |
| `Driver.NamedUserIgnoresProcess` | id.c:164-165 | for a named account the outcome does not depend on the process's real or effective ids, -r included |
| `Driver.NamedUserDefaultLine` | id.c:164-191 | a named account's default line is `uid=`, ` gid=` and the groups segment, with no `euid=` or `egid=` field |
| `Driver.SameIdsDefaultLine` | id.c:174-191 | when the real and effective ids coincide, the default line is `uid=`, ` gid=` and the groups segment only |
| `Driver.UidLine` | id.c:172-173 | with no operand and -u last, the line is the effective uid (the real uid with -r), as a name with -n and as a number otherwise |
| `Driver.GidLine` | id.c:170-171 | with no operand and -g last, the line is the effective gid (the real gid with -r), as a name with -n and as a number otherwise |
| `Driver.AllGidsLine` | id.c:168-169 | with no operand and -G last, the line is print_groups for the effective uid (the real uid with -r), always listing the process's real and effective gids |

## Left out

- Option scanning by `getopt` (id.c:122) is not modelled: its result is given as the
  option letters and the operands. Clustering, `--` and the point where scanning stops
  are not modelled.
- `setlocale` (id.c:119) is not modelled: it has no effect on the modelled output.
- The group-database cursor `setgrent`/`endgrent` (id.c:92, id.c:105) is an immutable
  table walked from first to last. Releasing the cursor is not modelled.
- Standard error is not modelled as text. A failing run returns a failure value
  (`BadOption`, `TooManyOperands`, `UnknownUser(name)`) instead of the diagnostic.
  `BadOption` carries no letter, because the source writes nothing itself: `getopt`
  writes that diagnostic.
- `printf`/`putchar` buffering is not modelled: standard output is the accumulated string.
- `uid_t`, `gid_t` and `id_t` are modelled as unbounded `nat`. The code does no
  arithmetic on ids, so no wrap-around is involved.
- The lookups are not the system databases. They take the first matching record of the
  injected tables, as the C library does for files read in order. NSS back-ends with
  another order are not modelled.
