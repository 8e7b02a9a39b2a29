# Authama: a model and its proofs

Authama manages the SSH keys, hosts and configuration of one home directory, from a
command line and from a web page. This project models the parts of it that are hard to
get right and proves what they promise, for all inputs and all runs:

* **Naming** (`Template`, `Pattern`, `Preference`, `Unambiguous`, `Cutting`, `Naming`,
  `Alias`, `Rivals`, `Generate`, `Fresh`, `NamingLimits`, `KeyName`, `KeyTemplate`, `Codes`): templates such as
  `{code}-{env?}-{role}-{nn}` are taken apart, checked, printed, turned into a pattern
  and read back with the backtracking of a regular expression engine. Reading and
  printing are shown to undo each other, the search for the next free name to find a
  new and least one, and a key name to give back its profile and key type. Where an
  accepted template breaks a law, the exact condition is proved beside an example.
* **Changing one home** (`Protocol`, `Commands`, `Questions`, `Previews`, `KeyRefs`): a
  command shows what it will do, asks, takes the lock, works its question out again, and
  only then writes. Any number of such processes, with crashes at any step, are one state
  machine; `Commands` writes the code they share as methods that run inside it. `Questions`
  has each command that asks, with what its text tells and what it compares.
* **One server per home** (`Serve`, `ServeFiles`): the record file, launches that reuse
  the recorded server, restarts that hand over to a successor, and removals that come
  late.
* **The web server's own state** (`Sessions`, `OwnerGate`, `Stash`, `Watch`): the session
  table, the PIN at sign-in and again on a change, secrets waiting for a confirmation,
  and the watch on the server's binary.
* **Texts and numbers** (`Base64`, `AuthKeys`, `KeyText`, `Pin`, `Calendar`, `Expiry`):
  editing `authorized_keys`, printing and reading a PIN hash, dates and expiry.
* **Streams and lists** (`Events`, `Csv`, `Forms`): a job's output as server-sent events,
  the CSV filters and their counts, and the form a confirmation posts back.

Code that works step by step is written as methods with loops or as classes, each proved
against a function that says what it computes; the laws are then proved about that
function. `Text` holds what the others share. Text is ASCII: `seq<char>`.

Where the code does something other than a first reading suggests, the model follows the
code and the condition is proved:

* Two optional parts let `Generate` hand out a name that is taken
  (`NamingLimits.GenerateReturnsTaken`). With one hyphen or dot between parts that happens
  exactly when the earlier is left out, the later is there, and each value from the one to
  the other could stand for the part before it (`Rivals.ReadsBackUnlessMoved`,
  `Fresh.NeverTakenAtOnce`); with letters in a separator too, giving the earlier part is no
  help (`NamingLimits.EarlierGivenMisread`), and the condition is whether the alias, cut at
  its marks with the other part there, has fitting values that are tried first
  (`Rivals.RivalExactly`, `Fresh.NeverTakenMarked`).
* A separator between two required parts tells their values apart exactly when it holds a
  hyphen or a dot, or, beside the number, a letter (`NamingLimits.SettledExactly`).
* An optional part that touches the part before it costs a key name its dash even when it
  is not the last part (`KeyTemplate.TouchingMisread`). The key type then comes back only
  when it is `ed25519`, the one that is assumed (`KeyTemplate.AlgoReadsBack`).
* The lock is best effort: when it cannot be made, a run can lose an update
  (`Protocol.LostWithoutLock`), but only with two processes inside at once
  (`Protocol.LostOnlyTogether`).
* `doctor --fix` shows the number of stale pins and does not look at it again, so it can
  remove more than was agreed to (`Questions.DoctorRemovesMore`); `vm sync` shows notes
  beside its lines and looks at the lines only (`Questions.VmSyncNotesMove`).
* A reconcile's preview names keys without their profiles, so it can mint a key of that
  name in another profile (`Questions.ReconcileOtherProfile`).
* The keys a question is about are compared as one text joined with commas, which names may
  hold: keygen's answers can be about two keys whose text is two others'
  (`Questions.KeygenMisled`), when a profile's name holds one (`KeyRefs.RefsToldExactly`,
  `KeyRefs.RefsTell`). Their number can always be told (`KeyRefs.SlashForEach`).
* Profile codes are checked to be apart, but not the ones taken from profile names
  (`Codes.CodesApart`, `Codes.FallbackShares`).
* A stopping server looks at the record and removes it in two steps, so its successor's
  record can be lost (`Serve.LateRemoval`). That, a launch while another is under way, one
  of another kind, one that asks for a new server, and a record that could not be written
  are the ways two servers come to run, and each is one (`Serve.OneAtATime`,
  `Serve.EachLapseTells`).
* Each removal of a key takes one carriage return off the end of every line kept
  (`KeyText.RemovingTwice`).
* An expiry in a year of other than four digits is printed and cannot be read, so the key
  becomes unknown (`Expiry.ComputedDays`, `Expiry.GregorianReadsBack`).
* A profile code's form is refused because of a field that is not carried to its
  confirmation, exactly when that field names no profile (`Forms.ProfileCodeExactly`,
  `Forms.ProfileCodeReadsMore`).

## Model

| member | source | states |
|---|---|---|
| `Template.ParseTemplate` | src/internal/core/naming/naming.go:120-133 | One pass that cuts the text at each part gives the literals and parts of the leftmost scan, one literal more than parts. |
| `Template.ScanLossless` | src/internal/core/naming/naming.go:120-133 | Writing a parsed template's literals and parts out again gives the template back, for every text. |
| `Template.WrittenScans` | src/internal/core/naming/naming.go:120-133 | A template written from parts parses to those parts. |
| `Template.ScanCut` | src/internal/core/naming/naming.go:188-199 | A character no part can hold, such as the underscore and dash of a key-name template, cuts the parse in two independent parses. |
| `Naming.CheckAlias` | src/internal/core/naming/naming.go:146-182 | The loop with its set of names seen reports the first fault in the order the checks are made. |
| `Naming.CheckAliasExact` | src/internal/core/naming/naming.go:141-182 | A template is let through if and only if its parts are known, each once, apart, its number required, no two optional parts in a row, and its literals host-name text. |
| `Pattern.Build` | src/internal/core/naming/naming.go:272-301 | The loop that blanks the separator an optional part took builds the groups of the pattern in order. |
| `Pattern.MatchSound` | src/internal/core/naming/naming.go:321-345 | What the backtracking search reads fits every group and spells the text it was read from. |
| `Pattern.MatchComplete` | src/internal/core/naming/naming.go:321-345 | Any text some reading spells is matched: the search misses nothing. |
| `Preference.MatchFirst` | src/internal/core/naming/naming.go:321-345 | For every pattern and every reading of a text, the engine's reading is that one or is tried before it: at the first part they differ in, there before left out, the longer value first, or the one listed first. |
| `Naming.RenderText` | src/internal/core/naming/naming.go:305-319 | The loop that blanks literals in place renders what the template says. |
| `Naming.RenderIsSpell` | src/internal/core/naming/naming.go:272-319 | The printer and the pattern agree on every text, though one blanks a separator always and the other only when a part is left out. |
| `Unambiguous.OneReading` | src/internal/core/naming/naming.go:272-301 | With a hyphen or dot in every separator a text has one reading, save that one of two optional parts may be read for the other when they take as many. |
| `Unambiguous.OneReadingOfTheSameParts` | src/internal/core/naming/naming.go:272-301 | With the same optional parts there, a text settles every value, however many parts are optional. |
| `Unambiguous.MarksTellParts` | src/internal/core/naming/naming.go:272-301 | The number of hyphens and dots tells which optional parts are there, save for one of two with as many. |
| `Cutting.CutReadSound` | src/internal/core/naming/naming.go:272-301 | What cutting a text at its separators' marks gives, for the optional parts said to be there, is a reading of it with just those. |
| `Cutting.CutReadComplete` | src/internal/core/naming/naming.go:272-301 | And every reading is what that cut gives: with the parts known there is nothing to search. |
| `Alias.ParseThenRender` | src/internal/core/naming/naming.go:305-345 | Whatever Parse reads from an alias renders back to that alias and gives every part text it can hold, for every accepted template, listed values or not. |
| `Alias.RenderingFollows` | src/internal/core/naming/naming.go:305-345 | Every rendering of usable values is read as something, for every accepted template. |
| `Alias.RenderThenParse` | src/internal/core/naming/naming.go:305-345 | Parse of a rendering is exactly the values rendered, given a hyphen or dot in every separator: with one optional part at most, both of two or neither, or two whose separators differ in number of them. |
| `Rivals.ReadsBackExactly` | src/internal/core/naming/naming.go:272-345 | For every accepted template and listed values: an alias reads back exactly when no other reading of it is tried before theirs. |
| `Rivals.RivalExactly` | src/internal/core/naming/naming.go:272-345 | With a hyphen or dot in every separator an alias reads back if and only if, of two optional parts with as many marks, not just one is there such that the alias, cut at its marks with the other there for it, has fitting values that are tried first. |
| `Rivals.ReadsBackUnlessMoved` | src/internal/core/naming/naming.go:272-345 | With one hyphen or dot between parts, an alias reads back if and only if its values cannot move up: not the earlier of two optional parts left out, the later there, and every value between fit for the part before it. |
| `Generate.CheckValues` | src/internal/core/naming/naming.go:385-405 | The values asked for are checked part by part, and the number's width found. |
| `Generate.LowestNumber` | src/internal/core/naming/naming.go:412-431 | The least number from the start that no taken name uses, at most start plus the number of taken names. |
| `Generate.Generate` | src/internal/core/naming/naming.go:380-439 | An error exactly when a value is missing, unusable or not listed, the first in the code's order. Else the alias has the least free number n and is what the template gives with each value asked for and n in as many digits as the template's number part says; where it can be read back it is new, and Parse gives each part that value and that number. |
| `Generate.FaultIsTrue` | src/internal/core/naming/naming.go:380-411 | What is reported is true of the values, and nothing is reported exactly when all can be used. |
| `Generate.RequestedAsAsked` | src/internal/core/naming/naming.go:432-438 | What an alias is to be read as has each value asked for, the number in the template's width, and nothing besides. |
| `Text.PaddedExactly` | src/internal/core/naming/naming.go:432 | The number's text is the one in digits that spells it in the width at least and in no more than it needs. |
| `Generate.FollowsExactly` | src/internal/core/naming/naming.go:349-356 | An alias is said not to follow the template if and only if no usable values render as it. |
| `Generate.ViolationOfValues` | src/internal/core/naming/naming.go:349-368 | What is said of an alias is the first thing wrong with the values it was rendered from: another profile's code, an unlisted env, an unlisted role. |
| `Generate.FillSuits` | src/internal/core/naming/naming.go:380-439 | What an alias is rendered from gives every part text it can hold. |
| `Generate.TakenOnlyIfMisread` | src/internal/core/naming/naming.go:412-438 | For every accepted template, a taken name is generated only if Parse misreads that very name. |
| `Generate.GeneratedIsFresh` | src/internal/core/naming/naming.go:349-439 | The alias is not taken, reads back as the parts asked for with its number, and breaks no rule. |
| `Fresh.UsesExactly` | src/internal/core/naming/naming.go:412-425 | With a hyphen or dot in every separator, a name uses up its number exactly when it reads back as what was asked for. |
| `Fresh.NeverTakenMarked` | src/internal/core/naming/naming.go:376-439 | Then Generate never returns a taken name, whatever is taken, exactly when no alias it could make, cut with the other of two optional parts there, has fitting values that are tried first. |
| `Fresh.NeverTakenExactly` | src/internal/core/naming/naming.go:376-439 | With one hyphen or dot between parts: exactly when no number lets the values asked for move up. |
| `Fresh.NeverTakenAtOnce` | src/internal/core/naming/naming.go:376-439 | And with no number among the listed values: exactly when the values cannot move up beside the first number. |
| `NamingLimits.FirstPartRead` | src/internal/core/naming/naming.go:272-345 | An alias that could have its first, optional part is read as having it: present is tried first. |
| `NamingLimits.TwoOptionalMisread` | src/internal/core/naming/naming.go:272-345 | Under `{code?}-{env}-{role?}-{nn}` the alias of an env and a role is read as having a code. |
| `NamingLimits.GenerateReturnsTaken` | src/internal/core/naming/naming.go:412-438 | Under that template Generate, told `a-b-00` is taken, returns `a-b-00`. |
| `NamingLimits.EarlierGivenMisread` | src/internal/core/naming/naming.go:272-345 | Under `{env}x-{code?}-{nn}-{role?}` every alias of an env, a numeric code and a number is misread, though the earlier optional part is given. |
| `NamingLimits.SettledExactly` | src/internal/core/naming/naming.go:272-319 | In every accepted template an alias settles the values of two required parts in a row if and only if their separator holds a hyphen or dot, or, beside the number, a character that is no digit. |
| `NamingLimits.UntoldMisread` | src/internal/core/naming/naming.go:272-345 | Where it does not, for any other values there is a usable choice of the two that Parse does not give back. |
| `KeyName.NormalizesOnce` | src/internal/core/key/key.go:16-20 | Normalising gives words with single dashes between them, and leaves such words alone. |
| `KeyName.NormalizedIs` | src/internal/core/key/key.go:16-28 | A normalised text is its runs of letters and digits, in lowercase, joined with dashes; a profile's token is the same runs without them. |
| `KeyName.BuiltReadsBack` | src/internal/core/key/key.go:22-73 | A built name is an error exactly when profile or service reduce to nothing; else it splits back to its profile and rest, and its key type is found. |
| `KeyName.AlgoEndings` | src/internal/core/key/key.go:45-73 | No known key type is another's ending after a dash, so the order of the search does not matter. |
| `KeyName.FirstSuffixWithoutDash` | src/internal/core/key/key.go:61-73 | Without the dash before it, a key type is found again if and only if it is the assumed one. |
| `KeyTemplate.CheckKeyName` | src/internal/core/naming/naming.go:188-213 | The checks in order: fixed start and end, known parts, something certain between them, no slash. |
| `KeyTemplate.Parts` | src/internal/core/naming/naming.go:188-213 | A template with the fixed start and end is the profile, an underscore, its middle, a dash and the key type. |
| `KeyTemplate.ProfileReadsBack` | src/internal/core/naming/naming.go:303-319 | A rendered name splits back to its profile if and only if the first text rendered after it still starts with the underscore. |
| `KeyTemplate.AlgoReadsBack` | src/internal/core/naming/naming.go:303-319 | In a rendered name that splits, the key type is found again if and only if the dash before it was kept or it is the assumed type. |
| `KeyTemplate.SteadyReadsBack` | src/internal/core/naming/naming.go:184-213 | With a required part first and no optional part touching the one before it, both read back for every host. |
| `KeyTemplate.SureExactly` | src/internal/core/naming/naming.go:184-213 | A template gives back profile and key type of every host that has the parts it needs if and only if none of the ways to leave parts out costs it the underscore or the dash: a look at the template alone. |
| `KeyTemplate.KeyNameReadsBack` | src/internal/core/naming/naming.go:446-475 | The same three facts for the name made from a host's own values and those its alias gives. |
| `KeyTemplate.DerivedReadsBack` | src/internal/core/manifest/naming.go:96-121 | A derived name splits back to its profile and gives its key type if and only if the default or an earlier release's name was used, or the template kept the underscore, and the dash or the assumed type. |
| `KeyTemplate.DerivedOfHost` | src/internal/core/manifest/naming.go:96-121 | With the default template, and for a host that lacks a part, the name splits to the host's profile and its alias with the key type; with another template it is the one text the template gives with the host's own values, and its alias's only where it has none. |
| `KeyTemplate.DerivedIsFile` | src/internal/core/manifest/manifest.go:599-618 | Whatever the template, a derived name is one file in its directory: no path, no pattern, no option, no blank or control character. |
| `KeyTemplate.AcceptedNoSlash` | src/internal/core/naming/naming.go:184-213 | A name an accepted template makes of values without a slash has none. |
| `KeyTemplate.TouchingMisread` | src/internal/core/naming/naming.go:303-319 | For any such parts, `{a}{e?}-{o?}` with neither optional part there loses the dash: only the assumed key type reads back. |
| `KeyTemplate.LeadingMisread` | src/internal/core/naming/naming.go:303-319 | For any such parts, `{e?}-{a}` without the optional part loses the underscore: the profile does not read back. |
| `Codes.CheckNaming` | src/internal/core/manifest/naming.go:72-94 | The manifest's own rules first, then the loop with its map of owners: the first unusable rules, unusable code or shared code. |
| `Codes.CheckExact` | src/internal/core/manifest/naming.go:72-94 | A manifest is let through if and only if its rules are usable, and every profile's, and its own codes are letters and digits, no two the same. |
| `Codes.CodesApart` | src/internal/core/manifest/naming.go:64-94 | In an accepted manifest no two profiles share a code if and only if no name used for one stands for another's code or name: own codes alone are always apart. |
| `Codes.FallbackShares` | src/internal/core/naming/naming.go:252-270 | Two names that differ in punctuation, and a name that is another's own code, are accepted and share. |
| `Protocol.RunsInTurn` | src/internal/services/mutation/guard.go:30-72 | In every run in which the lock works, one process at most is inside, and the home is every turn's own steps replayed in lock order: no update lost, none made twice. |
| `Protocol.OthersKeep` | src/internal/services/mutation/guard.go:49-72 | While one process holds the lock, no step of another changes the home or the lock. |
| `Protocol.TakenOnce` | src/internal/services/mutation/guard.go:33-55 | Each process has the lock at most once, so at most one turn. |
| `Protocol.InOrder` | src/internal/cli/reconcile.go:71-131 | When nobody was cut off half way, the home is the commands' effects composed in the order they took the lock. |
| `Protocol.NothingDone` | src/internal/cli/exit.go:29-43 | A "no", and a question whose answer moved, change nothing at any step. |
| `Protocol.CheckedFirst` | src/internal/cli/mutate.go:39-56 | Beside a declined process from the same home, an agreed one has done nothing more until its check passes, and it passes only on a home that answers as the one shown. |
| `Protocol.ActsOnWhatWasAgreed` | src/internal/cli/mutate.go:39-56 | In every run, a process that was agreed to is alone inside, its home is what earlier turns left plus its own steps, and after its check the question is answered as when it was shown. |
| `Protocol.AgreedExactly` | src/internal/cli/mutate.go:39-56 | Beside any other commands, a person always gets what was agreed to if and only if the question says no more than is looked at again. |
| `Protocol.NeverStuck` | src/internal/services/mutation/guard.go:33-55 | Until all have ended, some process can go on without failing. |
| `Protocol.LostOnlyTogether` | src/internal/services/mutation/guard.go:55-68 | As long as no two processes are ever inside at once, a run whose lock fails leaves the home as the run with the lock does: turns replayed one after another. |
| `Protocol.LostWithoutLock` | src/internal/services/mutation/guard.go:55-68 | When the lock cannot be made and is gone without, a run loses an update. |
| `Questions.AskedExactly` | src/internal/cli/mutate.go:39-56 | What is done is what a question said, beside any other commands, if and only if, wherever it is asked, the text compared settles what it said. |
| `Questions.KeyDeleteKeepsWord` | src/internal/cli/key.go:72-86 | The key deleted is the key named, profile and all. |
| `Questions.KeyDeleteDoes` | src/internal/cli/key.go:58-99 | It always asks, naming the key, and after a yes deletes exactly when the home then found gives that key; else it does nothing. |
| `Questions.ReconcileKeepsWord` | src/internal/cli/reconcile.go:71-131 | A reconcile mints keys of the names it said, records those it said and writes the files it said. |
| `Questions.ReconcileProfiles` | src/internal/services/reconciler/reconciler.go:66-88 | It mints the keys agreed to, profiles too, if and only if the preview settles the profiles. |
| `Questions.ReconcileDoes` | src/internal/cli/reconcile.go:71-131 | It always asks, by what it would do, and after a yes applies exactly when the home then found would have it do the same; else it does nothing. |
| `Questions.ReconcileKeysDoes` | src/internal/cli/reconcile.go:71-131 | Read as saying which keys it mints, it asks and does as before. |
| `Questions.ReconcileOtherProfile` | src/internal/services/reconciler/reconciler.go:66-68 | One key name in two profiles misleads. |
| `Questions.HostApplyKeepsWord` | src/internal/cli/hostapply.go:85-132 | host apply makes the profile only if it said so, and does with each host what it said. |
| `Questions.HostApplyDoes` | src/internal/cli/hostapply.go:85-132 | It always asks, by what it would do with each host, and after a yes applies exactly when the home then found would have it do the same; else it does nothing. |
| `Questions.KeygenExactly` | src/internal/cli/keygen.go:104-116 | keygen does what was answered if and only if the text of the keys settles the keys, as it does when no profile's name holds a comma. |
| `Questions.KeygenDoes` | src/internal/cli/keygen.go:63-124 | It always asks, of the keys that exist, and after a yes mints exactly when the same ones then exist, as text; else nothing. |
| `Questions.AskOverwrites` | src/internal/cli/keygen.go:63-84 | The loop of questions gives the keys to overwrite. |
| `Questions.OverwritesAnswered` | src/internal/services/reconciler/reconciler.go:215-248 | When the second look passes, the missing keys are minted first, and a key there is overwritten exactly when it was asked about and the answer was yes. |
| `Questions.KeygenMisled` | src/internal/cli/keygen.go:181-187 | Two keys, and two others whose text is theirs. |
| `Previews.ReconcileTells` | src/internal/services/reconciler/reconciler.go:54-113 | Two previews are the same text if and only if the names to mint and to record, in order, and the configuration lines are the same. |
| `Previews.ReconcileToldExactly` | src/internal/services/reconciler/reconciler.go:54-113 | Two previews are the same text if and only if they mint keys of the same names, record the same, write and remove the same files and, with none to mint, find as many. |
| `Previews.FormatBatch` | src/internal/services/editor/hostapply.go:44-70 | The loop with its counts writes the report's lines. |
| `Previews.BatchTells` | src/internal/services/editor/hostapply.go:44-70 | The report tells whether the profile is made and, for each host, its alias, what is done and with which changes. |
| `Previews.BatchToldExactly` | src/internal/services/editor/hostapply.go:44-70 | Two reports are the same text if and only if they do the same: the profile, and each host's alias, action and changes. |
| `KeyRefs.RefsOf` | src/internal/cli/key.go:348-355 | The loop gives the keys' names joined. |
| `KeyRefs.SlashForEach` | src/internal/cli/key.go:348-355 | The text has a slash for each key and no other, so the number of keys can always be told. |
| `KeyRefs.RefsTell` | src/internal/cli/keygen.go:181-187 | Where no profile's name holds a comma, two such texts are the same if and only if the keys are, in number and order. |
| `KeyRefs.RefsToldExactly` | src/internal/cli/keygen.go:181-187 | A text settles its keys if and only if no other comma could end one of its names. |
| `Questions.RegenPubKeepsWord` | src/internal/cli/key.go:306-320 | regen-pub writes as many as it said, whatever the names hold. |
| `Questions.RegenPubDoes` | src/internal/cli/key.go:305-330 | It always asks, by how many keys, and after a yes writes exactly when the home then found gives the same keys, as text; else nothing. |
| `Questions.VmSyncExactly` | src/internal/cli/vmsync.go:133-163 | vm sync does what it showed if and only if the plan's lines, where there are any, settle its notes; without any it asks nobody. |
| `Questions.VmSyncDoes` | src/internal/cli/vmsync.go:133-163 | It asks exactly when it has lines, and after a yes applies exactly when the home then found gives the same lines; else nothing. |
| `Questions.VmSyncNotesMove` | src/internal/services/vmsync/vmsync.go:419-437 | They need not: beside one VM whose Docker context is to be made, another's is up to date when asked about and somebody else's by then. |
| `Questions.DockerSettles` | src/internal/services/vmsync/vmsync.go:419-436 | One sync leaves nothing to do for a VM's context, touches no other VM's, and leaves somebody else's that points elsewhere as it was, with a note. |
| `Questions.DoctorExactly` | src/internal/cli/doctor.go:53-82 | doctor --fix does what was agreed to if and only if, with any upkeep to show, the plan's lines settle the number of stale pins. |
| `Questions.DoctorDoes` | src/internal/cli/doctor.go:53-82 | It asks exactly when there are lines or stale pins; modes are fixed in any case, and after a yes it syncs and then prunes, each from the home it finds, exactly when that home gives the same lines. |
| `Questions.DoctorRemovesMore` | src/internal/cli/doctor.go:169-196 | They do not: a home where one stale pin is agreed to and two are removed. |
| `Questions.UpkeepDone` | src/internal/cli/doctor.go:169-196 | Fixing modes makes them right; pruning removes every stale pin and no other. |
| `Commands.Process.LockForMutation` | src/internal/services/mutation/guard.go:55-72 | Waits for a free lock, and leaves this process inside with the home as it then is. |
| `Commands.Process.Recheck` | src/internal/cli/mutate.go:46-56 | Under the lock, true exactly when the home answers as the one shown; nothing is left to do when it does not. |
| `Commands.Process.Apply` | src/internal/cli/reconcile.go:117-131 | Runs what is left a step at a time, to the home that doing the rest gives. |
| `Commands.Process.AskAndApply` | src/internal/cli/reconcile.go:76-131 | Nothing to ask, aborted, changed or done, each with what it did to the home: nothing, nothing, nothing, or the writes of the home found under the lock, whose answer is then the one agreed to. |
| `Commands.Process.FixAndApply` | src/internal/cli/doctor.go:48-85 | doctor --fix: modes are fixed whether or not there was anything to ask and whatever the answer, the rest only when agreed to and unmoved. |
| `Serve.RecordNamesLast` | src/internal/cli/serve_instance.go:50-67 | In every run, while the last server to write the record runs, the record names it if and only if no removal that looked before that write came after it; and a record has its server's host, base path, port, token and kind. |
| `Serve.NeverLate` | src/internal/cli/serve_instance.go:61-67 | With looking and removing in one step no removal is late. |
| `Serve.RunKeeps` | src/internal/cli/serve.go:179-245 | Every run keeps the record true to its server, ports apart, and each successor's token, port and record choice its predecessor's. |
| `Serve.AddressKept` | src/internal/cli/serve_restart.go:22-67 | After any chain of restarts for the same host and base path the record differs from the first server's only in its instance. |
| `Serve.LaunchReuses` | src/internal/cli/serve.go:159-177 | In every run, a launch starts no other server if and only if the one that wrote the record last answers, its record was not removed late, and the launch is for no other, of no port of its own, on this machine, and of that server's base path and kind. |
| `Serve.OneAtATime` | src/internal/cli/serve.go:115-245 | In every run in which no default launch looks while another is under way, after a late removal, for another server or kind, and every record is written, one default server answers at most. |
| `Serve.EachLapseTells` | src/internal/cli/serve.go:115-245 | With any one of these five allowed, and no other, two can answer at once. |
| `Serve.LateRemoval` | src/internal/cli/serve_instance.go:63-67 | From every run whose recorded server answers, a restart can end with the successor running and no record. |
| `ServeFiles.NamesLastWritten` | src/internal/cli/serve_instance.go:34-67 | After any writes and removals by any servers, the record read is the one written last, if and only if nobody removed that instance's since. |
| `ServeFiles.Launch.TakeHandoff` | src/internal/cli/serve_restart.go:39-52 | The hand-over if it has a token and a port; the variable is cleared in any case. |
| `ServeFiles.Launch.Decide` | src/internal/cli/serve.go:119-204 | Reuse if and only if a record answers for a plain launch of the same kind with nothing handed over; a hand-over fixes port, token and record choice. |
| `ServeFiles.Launch.WaitGone` | src/internal/cli/serve_restart.go:54-63 | Stops at the first look the old server does not answer, or when time is up. |
| `Sessions.FirstAndLast` | src/internal/web/security.go:48-78 | However often the PIN is given, a session knows the first and the last time, is unlocked from the first on, and is otherwise the same. |
| `Sessions.Table.EarliestId` | src/internal/web/security.go:91-98 | In any order of the ids, one with the earliest sign-in. |
| `Sessions.Table.Create` | src/internal/web/security.go:85-104 | A new session under a fresh id; a full table loses exactly one, created earliest. |
| `Sessions.Table.Adopt` | src/internal/web/restart.go:80-91 | The table with each whole state taken in while there is room. |
| `Sessions.Table.List` | src/internal/web/restart.go:69-77 | Every session once, in some order. |
| `Sessions.CreateKeeps` | src/internal/web/security.go:85-104 | The ceiling is kept, the new session is there, and one oldest is gone exactly when the table was full. |
| `Sessions.NeverOverfull` | src/internal/web/security.go:28-30 | After any sequence of sign-ins and hand-overs the table holds at most 64 sessions. |
| `Sessions.HandedOver` | src/internal/web/restart.go:59-91 | Adopting what was listed, in any order, into an empty table gives every id, form token and sign-in time, and no PIN time. |
| `OwnerGate.Lockout` | src/internal/services/owner/attempts.go:54-64 | The doubling loop gives the wait after n wrong PINs, half a minute to a quarter of an hour. |
| `OwnerGate.WaitIs` | src/internal/services/owner/attempts.go:54-64 | Half a minute after the fifth wrong PIN in a row, twice as long after each more, never over a quarter of an hour. |
| `OwnerGate.CheckedExactly` | src/internal/services/owner/attempts.go:70-107 | No PIN is looked at before its time; the right one clears the count; a wrong one is counted, and from the fifth on the next has to wait. |
| `OwnerGate.SignsInExactly` | src/internal/web/security.go:174-240 | A request signs somebody in if and only if it reads a page of an allowed host with the server's own token; the table then has that one session more. |
| `OwnerGate.KeptOutExactly` | src/internal/web/security.go:174-256 | Who is not let in: neither with the token nor with a session. |
| `OwnerGate.FoldExactly` | src/internal/web/security.go:162-169 | Two hosts are one if and only if they are the same in lowercase. |
| `OwnerGate.ChangesExactly` | src/internal/web/security.go:258-310 | A change or job is made if and only if it is posted from a page of the same allowed host, with its session's form token and a form that can be read, to a server that is not read-only, in a session that is unlocked and gave the PIN within five minutes or gives it now. |
| `OwnerGate.CountsPinExactly` | src/internal/web/owner.go:39-86 | A PIN is counted if and only if a request from its own page has it looked at, to unlock or for a late change, and the right one unlocks that session alone. |
| `OwnerGate.AnswersExactly` | src/internal/web/security.go:258-310 | Which answer each request that is let in gets: refused for its origin, then its form token, told to unlock, and only then taken up. |
| `OwnerGate.AllEarned` | src/internal/web/security.go:174-310 | In every run each session was handed over or made for a request that brought the token, and the changes made are those of the requests that might make one, in order. |
| `OwnerGate.AlwaysGuarded` | src/internal/web/owner.go:26-86 | In every run a change or job is made only in a session, with a PIN set only within five minutes of that session's own last right PIN, and a session that never gave it is routed to /unlock only. |
| `OwnerGate.GuessesWait` | src/internal/services/owner/attempts.go:70-107 | n wrong PINs in a row that were looked at took at least the waits between them. |
| `OwnerGate.WaitedIs` | src/internal/services/owner/attempts.go:54-64 | Those waits come to 930 seconds for nine wrong PINs and a quarter of an hour for each more. |
| `OwnerGate.Gate.CheckPIN` | src/internal/web/owner.go:51-61 | The right PIN, and nothing else, unlocks the session; the count of wrong ones follows. |
| `OwnerGate.Gate.StepUp` | src/internal/web/owner.go:39-86 | True if and only if no PIN is set, the last is within the window, or the one given is right; then the window holds. |
| `Stash.AnswersAsLog` | src/internal/web/secrets.go:30-63 | With a clock that does not go back, the stash that sweeps answers every lookup as a log that forgets nothing. |
| `Stash.HeldUnlessSwept` | src/internal/web/secrets.go:31-45 | Whatever the clock did, the stash holds a secret exactly when the log has it and no later put swept it away. |
| `Stash.AnswersUnlessSwept` | src/internal/web/secrets.go:31-56 | It answers as the log if and only if no secret still good was swept away. |
| `Stash.OnlyItsOwn` | src/internal/web/secrets.go:47-56 | An answer was put by the same session, at most fifteen minutes ago, and nothing was done to its reference since. |
| `Stash.Secrets.PutSecret` | src/internal/web/secrets.go:31-45 | Exactly what has expired goes, and the new secret is there. |
| `Stash.Secrets.GetSecret` | src/internal/web/secrets.go:48-56 | The answer of the whole log. |
| `Stash.Secrets.DropSecret` | src/internal/web/secrets.go:59-63 | The reference goes and no other. |
| `Watch.WatchBinary` | src/internal/web/restart.go:97-127 | At most one restart, at the first tick where it and the one before saw a replaced, executable file of one size and time, and one exactly when there is such a tick. |
| `Base64.RoundTrip` | src/internal/core/pin/pin.go:110-112 | Text without padding decodes to the bytes it was encoded from. |
| `Base64.PaddedRoundTrip` | src/internal/core/authkeys/authkeys.go:28-31 | The same with padding. |
| `AuthKeys.WireTypeOfKey` | src/internal/core/authkeys/authkeys.go:24-50 | The type a wire-format key starts with, of any length below 2^32, is read from its base 64 text, unless that text is under 20 characters. |
| `AuthKeys.TypedIsWire` | src/internal/core/authkeys/authkeys.go:24-50 | And only the base 64 text of such a key has a type. |
| `AuthKeys.BodyOfTrimmed` | src/internal/core/authkeys/authkeys.go:55-87 | Space around a line does not change its key. |
| `AuthKeys.KeysHaveBodies` | src/internal/core/authkeys/authkeys.go:80-93 | A line is a key if and only if it has a body. |
| `AuthKeys.LineReadsBack` | src/internal/core/authkeys/authkeys.go:52-77 | Options that name no key type, a type, a body of that type and a comment, with a space between words, are read as just those. |
| `AuthKeys.LineIsKey` | src/internal/core/authkeys/authkeys.go:52-77 | A line that is read has a body of the type before it, the first type in it; an empty line and one that starts with a hash are not. |
| `KeyText.ProgramReadsTrimmed` | src/internal/core/authkeys/authkeys.go:55-87 | The program's way of reading a line is one the laws below hold for. |
| `KeyText.SplitLines` | src/internal/core/authkeys/authkeys.go:101-112 | The lines, each less one carriage return, without an empty last one. |
| `KeyText.AddKeyToText` | src/internal/core/authkeys/authkeys.go:132-148 | An error for no key, the text itself for a key that is there, else the text with the line after it. |
| `KeyText.RemoveKeyFromText` | src/internal/core/authkeys/authkeys.go:151-169 | The lines without that body joined again, and how many were dropped. |
| `KeyText.AddingAppends` | src/internal/core/authkeys/authkeys.go:131-148 | A present key changes nothing; another is added after the keys there were if and only if it is one line. |
| `KeyText.AddingTwice` | src/internal/core/authkeys/authkeys.go:131-148 | Adding again changes nothing. |
| `KeyText.RemovingDrops` | src/internal/core/authkeys/authkeys.go:150-169 | Exactly the lines with that body go and are counted, the others keep their order less one carriage return, and are the same if and only if none ended in one. |
| `KeyText.RemovingTwice` | src/internal/core/authkeys/authkeys.go:150-169 | A second removal removes nothing, and leaves the text if and only if no kept line still ends in a carriage return. |
| `KeyText.RemovingAdded` | src/internal/core/authkeys/authkeys.go:131-169 | Removing after adding leaves the keys there were, without that body. |
| `Pin.CostsReadBack` | src/internal/core/pin/pin.go:146-150 | Printed costs are read back unless one is too large for a number. |
| `Pin.PrintedReadsBack` | src/internal/core/pin/pin.go:102-160 | A printed Argon2id hash is read back as its costs, salt and key if and only if the costs are within bounds, the salt has 16 bytes or more and the key 32. |
| `Pin.OldReadsBack` | src/internal/core/pin/pin.go:115-182 | The same for a PBKDF2 hash. |
| `Pin.PrintedVerifies` | src/internal/core/pin/pin.go:137-160 | A PIN checked against any hash that can be read back: right if and only if its derived key is the one printed, weak if and only if a cost is below today's. |
| `Pin.VerifiedForm` | src/internal/core/pin/pin.go:130-160 | Nothing is checked against a text that is not of one of the two forms. |
| `Pin.HashThenVerify` | src/internal/core/pin/pin.go:102-160 | Checking a PIN against the hash of another says whether their keys are the same, never stale, never an error. |
| `Pin.OldThenVerify` | src/internal/core/pin/pin.go:126-182 | The same for PBKDF2, always stale. |
| `Pin.Sequential` | src/internal/core/pin/pin.go:92-100 | An ascending or a descending run. |
| `Calendar.OneDate` | src/internal/core/inventory/inventory.go:187-194 | Dates and day numbers are one to one. |
| `Calendar.NextDayNumber` | src/internal/core/inventory/inventory.go:187-194 | Counting days is going to the next date, through months, years and leap days. |
| `Calendar.WrittenReads` | src/internal/core/inventory/inventory.go:187-194 | A written date is read back if and only if its year has four digits. |
| `Expiry.GregorianReadsBack` | src/internal/core/inventory/inventory.go:187-194 | The same for days, for every day there is. |
| `Expiry.LargestWarning` | src/internal/core/expiry/expiry.go:63-71 | The largest threshold given, or 30. |
| `Expiry.StateIsTrue` | src/internal/core/expiry/expiry.go:90-111 | The state is that of the real number of days, though a duration holds only so many, if and only if the warning does not start further ahead than that. |
| `Expiry.StoredDay` | src/internal/core/expiry/expiry.go:72-111 | A stored day is the day, whenever the key was made; with neither that nor one to work it out from the key is unknown. |
| `Expiry.ComputedDays` | src/internal/core/expiry/expiry.go:77-111 | With no stored day, the days come from the creation day through print and parse if and only if the due day has a text; else the key is unknown. |
| `Expiry.DaysExact` | src/internal/core/expiry/expiry.go:98 | Those days are the interval less the age if and only if they fit a duration. |
| `Expiry.ComputeStatesIn` | src/internal/core/expiry/expiry.go:62-120 | One status for each record that is not archived, none twice, from any order of the map: fewer days first, a known day before an unknown one, and at the same day the lower fingerprint. |
| `Expiry.TextOrder` | src/internal/core/expiry/expiry.go:112-119 | A fingerprint is lower if and only if it starts the other or has the smaller character where they first differ. |
| `Expiry.OneOrder` | src/internal/core/expiry/expiry.go:112-119 | Two such lists are the same list. |
| `Expiry.UnknownLast` | src/internal/core/expiry/expiry.go:122-127 | After an unknown key come only unknown keys. |
| `Expiry.Cadence` | src/internal/core/expiry/expiry.go:130-137 | Daily if and only if some key needs attention. |
| `Expiry.LiveInCategory` | src/internal/core/inventory/inventory.go:172-185 | In a category a live key's path is taken for a predecessor's if and only if its profile is called old. |
| `Expiry.ArchivedTells` | src/internal/core/manifest/manifest.go:789-804 | With the manifest's check that no such profile has a category, live keys and predecessors are told apart, under a root whose name does not come above it. |
| `Events.Job.WriteText` | src/internal/services/jobs/jobs.go:82-91 | Lines and partial line are the whole output split, whatever the pieces it came in. |
| `Events.Job.ViewNow` | src/internal/services/jobs/jobs.go:130-146 | The view of all output so far; a line with no end counts once the job is over. |
| `Events.ViewsGrow` | src/internal/services/jobs/jobs.go:130-146 | A later view has an earlier one's lines first, and none comes after the end. |
| `Events.Stream` | src/internal/web/jobs.go:517-554 | Over any growing views: exactly the last view's lines, in order, each once; a state when it differs from the last sent; an end only on a view of a job that is over, whose lines are all sent. |
| `Events.StreamJob` | src/internal/web/jobs.go:517-554 | Over one job looked at at any moments in order: the stream ends if and only if the job is over and was looked at then, with every line of it sent; until then the first lines of it. |
| `Events.NothingMissed` | src/internal/web/jobs.go:530-545 | What has then been sent is the job's whole output. |
| `Events.ReceivedAsSent` | src/internal/web/jobs.go:548-560 | A page reads back exactly the events sent: no output can end its event early or start another. |
| `Events.ReceivedAsTold` | src/internal/web/jobs.go:548-560 | What it reads is each line of output, less its carriage returns, and each state. |
| `Csv.FilterOnly` | src/internal/util/csvout/csvout.go:120-135 | The rows with a chosen cell; all of them with nothing chosen or no such column. |
| `Csv.ByKeys` | src/internal/web/csvshape.go:82-129 | The key filter by column, by list, and narrowing, row by row. |
| `Csv.Stages` | src/internal/web/csvshape.go:134-139 | The three filters in turn. |
| `Csv.KeptExactly` | src/internal/web/csvshape.go:82-145 | A row is kept if and only if its profile and one of its keys are among those chosen, where any are and the list has the column, and no cell then left of it holds the text to leave out. |
| `Csv.ContainsExactly` | src/internal/util/csvout/csvout.go:84-104 | A cell holds a text if and only if it is somewhere in it, in whatever case. |
| `Csv.OnePass` | src/internal/web/csvshape.go:131-145 | The rows kept are each row put through all filters, and each count is at most the one before. |
| `Csv.Subsequence` | src/internal/web/csvshape.go:131-145 | The rows kept come from an increasing list of exactly the rows that pass. |
| `Csv.NarrowedRow` | src/internal/web/csvshape.go:112-125 | The key list reads back as the chosen keys in order, the counts beside it are theirs, and no other cell changes. |
| `Csv.DroppedCells` | src/internal/util/csvout/csvout.go:50-80 | Dropping columns drops no row and keeps every other column's cells under its name. |
| `Csv.Tally` | src/internal/web/csvshape.go:205-227 | Each item once, in first-seen order, with how often it comes; the counts add up to all items. |
| `Csv.ProfilesOf` | src/internal/web/csvshape.go:205-227 | That for profiles; the counts add up to the rows wide enough to have one. |
| `Csv.KeysOf` | src/internal/web/csvshape.go:163-203 | That for keys by profile; exactly those some row names are counted, and the counts add up to all mentions. |
| `Forms.ConfirmedAsPreviewed` | src/internal/web/changes.go:253-584 | Whatever change a previewed form builds, the form cut down to its action's listed fields, and no others, builds. |
| `Forms.ValuesSay` | src/internal/web/changes.go:253-584 | Every value of a change is what the form's field of that name says: names are names, ports and numbers in range, ticks ticks, and lines without control characters. |
| `Forms.NamesTaken` | src/internal/web/changes.go:114-181 | A name's field is taken if and only if it has 1 to 128 letters, digits, dots, underscores and dashes, the first a letter or digit. |
| `Forms.LinesTaken` | src/internal/web/changes.go:132-165 | A line's field is taken if and only if it has no control character and 512 characters at most. |
| `Forms.NumbersTaken` | src/internal/web/changes.go:221-238 | A port's field is taken if and only if it is empty or a number from 1 to 65535, and what to keep from 0 to 1000. |
| `Forms.TextsTaken` | src/internal/web/changes.go:153-165 | Host specs and a token configuration are taken if they are text with no control character but tabs and ends of lines, and their own check takes them; a lifetime and a key root as their checks say. |
| `Forms.KeyRefTaken` | src/internal/web/jobs.go:77-84 | A key's field is taken if and only if it is a profile's name, a slash and a key's name. |
| `Forms.ChoicesTaken` | src/internal/web/changes.go:283-318 | A key scope is taken if and only if it is one of the two there are, or none. |
| `Forms.SecretsHeld` | src/internal/web/changes.go:242-251 | A secret is what its reference stands for, and nothing without one. |
| `Forms.NamingSays` | src/internal/web/naming_changes.go:23-47 | A naming change is for a profile there is or for all, holds each value exactly when it differs from what is stored, and some value. |
| `Forms.NamingChecked` | src/internal/web/naming_changes.go:23-47 | Its envs and roles are names, and its choices among those there are. |
| `Forms.CodeSays` | src/internal/web/naming_changes.go:57-76 | A profile's new code is letters and digits and not the one it has. |
| `Forms.TokenSays` | src/internal/web/changes.go:467-495 | The tool a token's check is given is the form's, or none when the form shows composer beside a service. |
| `Forms.JobSays` | src/internal/web/jobs.go:86-189 | Every value of a job is what its form's fields say. |
| `Forms.ListedRead` | src/internal/web/changes.go:34-90 | Each field an action is listed with is read, and no other. |
| `Forms.ListedNeeded` | src/internal/web/changes.go:34-90 | And each is needed: for every action and field there are a form and a home that build something else, or nothing, without it. |
| `Forms.ProfileCodeExactly` | src/internal/web/naming_changes.go:27-76 | A profile code's form is refused where its confirmation is not if and only if the page's scope is no profile's name. |
| `Forms.StartedAsReviewed` | src/internal/web/jobs.go:86-189 | The job a reviewed form builds is the one its carried form builds, and is refused when it is; in a sandbox exactly the restore and the two that read host keys are built. |
| `Forms.JobListedNeeded` | src/internal/web/jobs.go:41-58 | Each field a job is listed with is needed. |

## Left out

- Generate.GeneratedIsFresh: is for numbers up to the largest 64-bit int, as `Atoi` gives up above it.
- Alias.RenderThenParse: values and literals are ASCII; a number part wider than the regular expression engine's repeat limit of 1000, for which building the pattern panics, is not modelled.
- Protocol.LostWithoutLock: after a lock could not be made the code tries once more at the snapshot; the model goes on without.
- Commands.Process.LockForMutation: the wait is for the holder to end; how the operating system orders waiters is not modelled.
- Questions.VmSyncExactly: the web's apply compares a hash instead; that two plans do not share a hash would be its premise.
- Questions.KeygenExactly: what is said is which keys exist; how the line and the prompts word it is not modelled, nor that resolving a key can fail, which ends the command.
- keygen's passphrase, how host specs are read, and what a reconcile, mint or sync writes: abstract stages of writes.
- Serve.OneAtATime: a launch is under way until its server first answers; the code's check takes one second at most.
- Stash.AnswersUnlessSwept: the server's own clock does not go back, as time differences are monotonic; one that is passed in may.
- Rivals.ReadsBackExactly: is for listed values, which Generate checks; for others, `Alias.RenderThenParse` and `Alias.RenderingFollows` hold.
- Serve.RecordNamesLast: the health check is taken as right; a server too slow to answer in a second counts as gone in the code. Any process may begin the removal of a stopped server's record.
- `serve --stop-all` and `--restart`, port search and the text of addresses.
- OwnerGate.AlwaysGuarded: a request is one step; a session evicted while its request runs, the routes that change nothing, bodies over the size limit, and the base path are not modelled.
- OwnerGate.Lockout: rehashing a PIN stored at a lower cost is not modelled.
- Sessions.Table.Create: that random ids are fresh and not empty is its premise, and the same for the stash's references.
- KeyText.AddKeyToText: the way a line is read is a parameter; `ProgramReadsTrimmed` shows the program's way is one it holds for. Unicode white space is not modelled.
- Pin.HashThenVerify: Argon2id and PBKDF2 are parameters that give keys of the right length; constant time is not modelled, nor the policy on PINs beyond `Sequential`.
- Calendar.WrittenReads: the calendar stands for Go's time package; adding more days than its arithmetic holds is not modelled.
- Expiry.ComputeStatesIn: today is a UTC midnight; how a day is read and written is a parameter, shown for the calendar.
- Events.Stream: heartbeats carry no data; a job writes nothing after it has ended.
- Csv.KeysOf: profile and key are a pair; the code joins them with a NUL, which no cell holds.
- Forms.ListedNeeded: of the checks made by other packages, the home it gives lets through the values its forms have, each one the program's check lets through.
- KeyTemplate.SureExactly: a host's values are any the code passes on; that some alias template never gives a part is not used.
- Forms.ConfirmedAsPreviewed: checks made by other packages are one parameter on the values they get; a field with several values has its first.
- Command flags, help, tables, pages, ssh and other processes, file formats and manifest loading, inventory storage, and deployment states: user interface, foreign effects or easy members.
