/** Forms and the changes they ask for. A preview's form is cut down to the fields its
    action is listed with and posted back by the confirmation; what is then built must
    be what was previewed. Checks made elsewhere are a parameter. */
module Forms {
  import opened Text

  datatype Field =
    | FAdopt | FAlias | FAll | FBody | FCategory | FCode | FCodeFallback | FConfirm | FCreate | FDockerMode | FEnforce
    | FEnvs | FFor | FHost | FHostname | FHypervisor | FId | FInstall | FKeep | FKey | FKeyComment | FKeyName
    | FKeyScope | FKeyType | FLifetime | FName | FNote | FOn | FPinCurrentRef | FPinNewRef | FPinConfirmRef | FPort
    | FProfile | FPurge | FReplace | FRepin | FRoles | FRoot | FScope | FSecretRef | FSelection | FServer | FService
    | FSource | FSpecs | FStart | FTags | FTarget | FUser | FUsername | FVm | FTool(name: string)

  datatype Action =
    | ProfileAdd | ProfileComment | ProfileEdit | ProfileDelete | ProfileCategory | HostAdd | HostEdit | HostDelete
    | KeyDelete | KeyReserve | KeyUnreserve | VmAdd | ConfigRender | Reconcile | Keygen | KeyAdd | ProvidersExport
    | SnapshotsPrune | DoctorFix | HostApply | Clean | Bundle | VmDockerContext | SnapshotsRestore | NotifyTest
    | AuditNotify | TokenDelete | TokenApply | VmSync | VmAdoptKey | VmSchedule | SettingsInit | ExportSelectionSave
    | ExportSelectionDelete | TokenSet | TokenInit | TokenImport | TokenConfigEdit | KeyLifetime | KeyRegenPub
    | SshImport | KeyRoot | NamingSet | NamingKeyTemplate | ProfileCode | OwnerInit | OwnerPinSet | OwnerPinRemove
    | OwnerReseal | OwnerForget | OwnerFingerprint | Repair | FactoryReset

  /** The tools token-init can be asked for, in order. */
  const TOOLS: seq<string> := ["composer", "npm", "docker", "git", "netrc", "pypi", "cargo", "gem", "gradle", "maven", "yarn", "helm", "helm-oci", "gh"]

  /** The fields each action is listed with. */
  function Listed(a: Action): set<Field> {
    match a
    case ProfileAdd => {FName, FKeyScope, FKeyName, FKeyComment, FCategory}
    case ProfileComment => {FName, FKeyComment}
    case ProfileEdit => {FName, FKeyScope, FKeyName}
    case ProfileDelete => {FName, FPurge}
    case ProfileCategory => {FName, FCategory}
    case HostAdd => {FProfile, FAlias, FHostname, FUser, FPort, FTags}
    case HostEdit => {FProfile, FAlias, FHostname, FUser, FPort, FTags}
    case HostDelete => {FProfile, FAlias}
    case KeyDelete => {FProfile, FKey}
    case KeyReserve => {FKey, FFor, FNote}
    case KeyUnreserve => {FKey}
    case VmAdd => {FProfile, FAlias, FHypervisor, FVm, FUser}
    case Keygen => {FTarget}
    case KeyAdd => {FProfile, FKey, FKeyType, FHost}
    case SnapshotsPrune => {FKeep}
    case HostApply => {FProfile, FSpecs, FCreate, FCategory}
    case Clean => {FAdopt}
    case Bundle => {FKeep}
    case VmDockerContext => {FAlias}
    case SnapshotsRestore => {FId}
    case TokenDelete => {FTarget, FHost}
    case VmSync => {FRepin}
    case VmAdoptKey => {FKey, FProfile, FAlias, FHypervisor, FVm, FUser}
    case VmSchedule => {FInstall}
    case ExportSelectionSave => {FName, FSelection}
    case ExportSelectionDelete => {FName}
    case TokenSet => {FTarget, FService, FServer, FUsername, FScope, FDockerMode, FSecretRef}
    case TokenInit => set t | t in TOOLS :: FTool(t)
    case TokenConfigEdit => {FBody}
    case KeyLifetime => {FKey, FLifetime}
    case KeyRegenPub => {FKey, FProfile, FAll}
    case SshImport => {FSource, FReplace}
    case KeyRoot => {FRoot, FConfirm}
    case NamingSet => {FProfile, FAlias, FEnvs, FRoles, FEnforce, FStart, FCodeFallback}
    case NamingKeyTemplate => {FProfile, FKeyName}
    case ProfileCode => {FName, FCode}
    case OwnerPinSet => {FPinCurrentRef, FPinNewRef, FPinConfirmRef}
    case OwnerPinRemove => {FPinCurrentRef}
    case OwnerForget => {FConfirm}
    case OwnerFingerprint => {FOn}
    case FactoryReset => {FConfirm}
    case _ => {}
  }

  /** A form: its action and the first value of each field it has. */
  datatype Form = Form(action: Action, fields: map<Field, string>) {
    function Of(k: Field): Option<string> { if k in fields then Some(fields[k]) else None }
    function Get(k: Field): string { if k in fields then fields[k] else "" }
  }

  /** What the confirmation posts back. */
  function Carried(f: Form): Form {
    Form(f.action, map k | k in f.fields && k in Listed(f.action) :: f.fields[k])
  }

  // Reading a value. None is an error the form is refused with.

  datatype Value = Str(s: string) | Maybe(m: Option<string>) | Num(n: int) | MaybeNum(p: Option<int>) | Flag(b: bool)
    | List(l: seq<string>) | MaybeList(ml: Option<seq<string>>) | Flags(fs: seq<bool>)

  predicate NameChar(c: char) { 'A' <= c <= 'Z' || IsAlnum(c) || c in {'.', '_', '-'} }

  predicate IsName(v: string) {
    1 <= |v| <= 128 && v[0] !in {'.', '_', '-'} && forall i :: 0 <= i < |v| ==> NameChar(v[i])
  }

  predicate Control(c: char) { c < ' ' || c as int == 127 }

  predicate NoControl(v: string) { forall i :: 0 <= i < |v| ==> !Control(v[i]) }

  predicate TextOnly(v: string) { forall i :: 0 <= i < |v| ==> Control(v[i]) ==> v[i] in {'\n', '\r', '\t'} }

  function Name(v: string): Option<Value> { if IsName(Trim(v)) then Some(Str(Trim(v))) else None }

  function PlainText(v: string): Option<string> { if NoControl(Trim(v)) && |Trim(v)| <= 512 then Some(Trim(v)) else None }

  function Plain(v: string): Option<Value> {
    match PlainText(v) case None => None case Some(t) => Some(Str(t))
  }

  function Edit(v: string): Option<Value> {
    match PlainText(v) case None => None case Some(t) => Some(Maybe(if t == "" then None else Some(t)))
  }

  function Needed(v: string): Option<Value> { if PlainText(v) == Some("") then None else Plain(v) }

  function OptionalName(v: string): Option<Value> { if Trim(v) == "" then Some(Str("")) else Name(v) }

  function Scope(v: string): Option<Value> { if Trim(v) in {"", "per_service", "shared"} then Plain(v) else None }

  function EditScope(v: string): Option<Value> { if Trim(v) in {"", "per_service", "shared"} then Edit(v) else None }

  function Short(v: string): Option<Value> { if |Trim(v)| <= 200 then Plain(v) else None }

  function Checked(v: string): Option<Value> { Some(Flag(v == "1")) }

  function OneOf(v: string, allowed: set<string>): Option<Value> { if Trim(v) in allowed then Plain(v) else None }

  /** A number from low to high. */
  function Within(v: string, low: int, high: int): Option<int> {
    match SignedAtoi(Trim(v)) case None => None case Some(n) => if low <= n <= high then Some(n) else None
  }

  function Port(v: string): Option<Value> {
    if Trim(v) == "" then Some(MaybeNum(None))
    else match Within(v, 1, 65535) case None => None case Some(n) => Some(MaybeNum(Some(n)))
  }

  function Keep(v: string): Option<Value> {
    match Within(v, 0, 1000) case None => None case Some(n) => Some(Num(n))
  }

  function KeepOrNone(v: string): Option<Value> { if Trim(v) == "" then Some(Num(0)) else Keep(v) }

  function NotEmpty(items: seq<string>): seq<string> {
    if items == [] then []
    else (if Trim(items[0]) == "" then [] else [Trim(items[0])]) + NotEmpty(items[1..])
  }

  function Tags(v: Option<string>): Option<Value> {
    if v.None? then Some(MaybeList(None))
    else match PlainText(v.value) case None => None case Some(t) => Some(MaybeList(Some(NotEmpty(Split(t, ',')))))
  }

  function KeyRef(v: string): Option<Value> {
    var t := Trim(v);
    var i := IndexOf(t, '/');
    if i < |t| && IsName(t[..i]) && IsName(t[i + 1..]) then Some(List([t[..i], t[i + 1..]])) else None
  }

  /** The checks other packages make. */
  datatype Check = CSpecs | CLifetime | CKeyRoot | CHypervisor | CTarget | CToken | CDockerMode | CNamesOnly | CKeyTemplate
    | CSelection | CSelectionName | CSource | CSelected | CBundle | CHost

  /** What is known of the home: its profiles, their rules and codes, held secrets, and
      the checks made by other packages, each on the values it is given. */
  datatype Home = Home(
    profiles: map<string, string>,
    naming: map<string, Naming>,
    secret: string -> Option<string>,
    check: (Check, seq<string>) -> Option<Value>)

  datatype Naming = Naming(alias: string, envs: seq<string>, roles: seq<string>, enforce: string, codeFallback: string, start: int)

  const NO_NAMING := Naming("", [], [], "", "", 0)

  function Held(h: Home, ref: string): Option<Value> {
    Some(Str(if ref == "" then "" else match h.secret(ref) case None => "" case Some(v) => v))
  }

  // The changes.

  /** What is asked for, and its values. */
  datatype Change<K> = Change(kind: K, values: seq<Value>)

  /** What a change is called, and the field each of its values is read from, where each is
      read from one. */
  datatype Kind = Kind(name: string, fields: seq<Field>)

  /** The change, when every value could be read; all the errors are reported at once. */
  function Made<K>(kind: K, read: seq<Option<Value>>): Option<Change<K>> {
    if None in read then None
    else Some(Change(kind, seq(|read|, i requires 0 <= i < |read| => read[i].value)))
  }

  /** One key, one profile's keys, or every key. */
  function Selection(key: string, profile: string, all: string): Option<Value> {
    if all == "1" && Trim(key) == "" then Some(List([]))
    else if Trim(key) != "" && Trim(profile) == "" && all != "1" then KeyRef(key)
    else if Trim(profile) != "" && Trim(key) == "" && all != "1" then Name(profile)
    else None
  }

  /** The profile a naming change is for: none, or one there is. */
  function NamingScope(h: Home, v: string): Option<Value> {
    match OptionalName(v)
    case None => None
    case Some(p) => if p.s == "" || p.s in h.profiles then Some(p) else None
  }

  /** A field that differs from what is stored, or nothing. */
  function Differs(v: string, now: string, allowed: set<string>): Option<Value> {
    match PlainText(v)
    case None => None
    case Some(t) =>
      if allowed != {} && t != "" && t !in allowed then None else Some(Maybe(if t == now then None else Some(t)))
  }

  function DiffersList(v: string, now: seq<string>): Option<Value> {
    match PlainText(v)
    case None => None
    case Some(t) =>
      var items := NotEmpty(Split(t, ','));
      if forall i :: 0 <= i < |items| ==> IsName(items[i]) then Some(MaybeList(if items == now then None else Some(items))) else None
  }

  function DiffersStart(v: string, now: int): Option<Value> {
    if Trim(v) !in {"", "0", "1"} then None
    else
      var n := if Trim(v) == "1" then 1 else 0;
      Some(MaybeNum(if n == now then None else Some(n)))
  }

  predicate Unset(v: Value) {
    match v case Maybe(m) => m.None? case MaybeList(l) => l.None? case MaybeNum(n) => n.None? case _ => false
  }

  function NamingRules(h: Home, profile: string): Naming {
    if profile in h.naming then h.naming[profile] else NO_NAMING
  }

  function NamingSetKind(): Kind { Kind("naming set", [FProfile, FAlias, FEnvs, FRoles, FEnforce, FCodeFallback, FStart]) }

  /** The scope, and each rule as it is to be changed. */
  function RulesAsRead(scope: Value, cur: Naming, alias: string, envs: string, roles: string, enforce: string, fallback: string, start: string)
    : (read: seq<Option<Value>>)
    ensures |read| == 7
  {
    [Some(scope), Differs(alias, cur.alias, {}), DiffersList(envs, cur.envs), DiffersList(roles, cur.roles),
     Differs(enforce, cur.enforce, {"off", "warn", "error"}), Differs(fallback, cur.codeFallback, {"none", "profile"}), DiffersStart(start, cur.start)]
  }

  /** The rules a form changes; a form that changes none is refused. */
  function NamingSetOf(h: Home, profile: string, alias: string, envs: string, roles: string, enforce: string,
                       fallback: string, start: string): Option<Change<Kind>> {
    match NamingScope(h, profile)
    case None => None
    case Some(scope) =>
      var cur := NamingRules(h, Trim(profile));
      match Made(NamingSetKind(), RulesAsRead(scope, cur, alias, envs, roles, enforce, fallback, start))
      case None => None
      case Some(c) => if forall i :: 1 <= i < |c.values| ==> Unset(c.values[i]) then None else Some(c)
  }

  /** A profile's code. The page's scope is looked at too, though it is not listed and
      not part of the change. */
  function ProfileCodeOf(h: Home, scope: string, name: string, code: string): Option<Change<Kind>> {
    match (NamingScope(h, scope), Name(name), PlainText(code))
    case (Some(_), Some(n), Some(c)) =>
      if n.s in h.profiles && AllAlnum(c) && c != h.profiles[n.s] then Made(Kind("profile code", [FName, FCode]), [Some(n), Some(Str(c))]) else None
    case _ => None
  }

  /** Which of the tools are ticked. */
  function Ticks(f: Form, tools: seq<string>): (ticks: seq<bool>)
    ensures |ticks| == |tools| && forall i :: 0 <= i < |tools| ==> ticks[i] == (f.Get(FTool(tools[i])) == "1")
  {
    seq(|tools|, i requires 0 <= i < |tools| => f.Get(FTool(tools[i])) == "1")
  }

  /** What a change is called. */
  function What(a: Action): Kind { Kind(WhatName(a), FieldList(Entries(a))) }

  function WhatName(a: Action): string {
    match a
    case ProfileAdd => "profile add"
    case ProfileComment => "profile comment"
    case ProfileEdit => "profile edit"
    case ProfileDelete => "profile delete"
    case ProfileCategory => "profile category"
    case HostAdd => "host add"
    case HostEdit => "host edit"
    case HostDelete => "host delete"
    case HostApply => "host apply"
    case KeyDelete => "key delete"
    case KeyReserve => "key reserve"
    case KeyUnreserve => "key unreserve"
    case Keygen => "keygen"
    case KeyAdd => "key add"
    case KeyLifetime => "key lifetime"
    case KeyRegenPub => "key regen-pub"
    case KeyRoot => "key root"
    case VmAdd => "vm add"
    case VmDockerContext => "vm docker-context"
    case VmSync => "vm sync"
    case VmAdoptKey => "vm adopt-key"
    case VmSchedule => "vm sync --install-schedule"
    case TokenDelete => "token delete"
    case TokenSet => "token set"
    case TokenInit => "token init"
    case TokenConfigEdit => "token config"
    case NamingKeyTemplate => "naming key-template"
    case SnapshotsPrune => "snapshots prune"
    case Clean => "clean"
    case Bundle => "bundle"
    case SnapshotsRestore => "snapshots restore"
    case ExportSelectionSave => "export save"
    case ExportSelectionDelete => "export delete"
    case SshImport => "ssh import"
    case OwnerPinSet => "owner pin set"
    case OwnerPinRemove => "owner pin remove"
    case OwnerForget => "owner forget"
    case OwnerFingerprint => "owner fingerprint"
    case FactoryReset => "factory reset"
    case _ => "plain"
  }

  /** A way to read a field. */
  datatype Reader =
    | AsName | AsOptionalName | AsPlain | AsEdit | AsNeeded | AsScope | AsEditScope | AsShort | AsChecked | AsKeyType
    | AsPort | AsKeep | AsKeepOrNone | AsTags | AsKeyRef | AsLifetime | AsKeyRoot | AsSpecs | AsBody | AsTrimmed
    | AsNamingScope | AsHeld | AsForget | AsReset | AsHypervisor | AsKeyTemplate | AsTarget | AsSelectionName | AsSource

  /** Text that is on one line and passes a check. */
  function PlainChecked(h: Home, c: Check, v: string): Option<Value> {
    match PlainText(v) case None => None case Some(t) => if h.check(c, [t]).Some? then Some(Str(t)) else None
  }

  function ReadAs(how: Reader, field: Option<string>, h: Home): Option<Value> {
    var v := if field.None? then "" else field.value;
    match how
    case AsName => Name(v)
    case AsOptionalName => OptionalName(v)
    case AsPlain => Plain(v)
    case AsEdit => Edit(v)
    case AsNeeded => Needed(v)
    case AsScope => Scope(v)
    case AsEditScope => EditScope(v)
    case AsShort => Short(v)
    case AsChecked => Checked(v)
    case AsKeyType => OneOf(v, {"", "ed25519", "rsa", "ecdsa", "ed25519-sk", "ecdsa-sk"})
    case AsPort => Port(v)
    case AsKeep => Keep(v)
    case AsKeepOrNone => KeepOrNone(v)
    case AsTags => Tags(field)
    case AsKeyRef => KeyRef(v)
    case AsLifetime => if Trim(v) == "default" then Some(Num(0)) else h.check(CLifetime, [Trim(v)])
    case AsKeyRoot => if Trim(v) == "" then None else h.check(CKeyRoot, [Trim(v)])
    case AsSpecs => if TextOnly(v) && |v| <= 16384 then h.check(CSpecs, [v]) else None
    case AsBody => if TextOnly(v) && h.check(CNamesOnly, [v]).Some? then Some(Str(v)) else None
    case AsTrimmed => Some(Str(Trim(v)))
    case AsNamingScope => NamingScope(h, v)
    case AsHeld => Held(h, v)
    case AsForget => Some(Flag(Trim(v) == "forget"))
    case AsReset => Some(Flag(Trim(v) == "reset"))
    case AsHypervisor => PlainChecked(h, CHypervisor, v)
    case AsKeyTemplate => PlainChecked(h, CKeyTemplate, v)
    case AsTarget => h.check(CTarget, [Trim(v)])
    case AsSelectionName => h.check(CSelectionName, [Trim(v)])
    case AsSource => h.check(CSource, [v])
  }

  datatype Entry = Entry(how: Reader, field: Field)

  /** How an action's fields are read, in the order of the change's values. */
  function Entries(a: Action): seq<Entry> {
    match a
    case ProfileAdd =>
      [Entry(AsName, FName), Entry(AsScope, FKeyScope), Entry(AsOptionalName, FKeyName), Entry(AsPlain, FKeyComment),
       Entry(AsOptionalName, FCategory)]
    case ProfileComment => [Entry(AsName, FName), Entry(AsPlain, FKeyComment)]
    case ProfileEdit => [Entry(AsName, FName), Entry(AsEditScope, FKeyScope), Entry(AsOptionalName, FKeyName)]
    case ProfileDelete => [Entry(AsName, FName), Entry(AsChecked, FPurge)]
    case ProfileCategory => [Entry(AsName, FName), Entry(AsOptionalName, FCategory)]
    case HostAdd =>
      [Entry(AsName, FProfile), Entry(AsName, FAlias), Entry(AsNeeded, FHostname), Entry(AsNeeded, FUser), Entry(AsPort, FPort),
       Entry(AsTags, FTags)]
    case HostEdit =>
      [Entry(AsName, FProfile), Entry(AsName, FAlias), Entry(AsEdit, FHostname), Entry(AsEdit, FUser), Entry(AsPort, FPort),
       Entry(AsTags, FTags)]
    case HostDelete => [Entry(AsName, FProfile), Entry(AsName, FAlias)]
    case HostApply => [Entry(AsName, FProfile), Entry(AsSpecs, FSpecs), Entry(AsChecked, FCreate), Entry(AsOptionalName, FCategory)]
    case KeyDelete => [Entry(AsName, FProfile), Entry(AsName, FKey)]
    case KeyReserve => [Entry(AsName, FKey), Entry(AsShort, FFor), Entry(AsShort, FNote)]
    case KeyUnreserve => [Entry(AsName, FKey)]
    case Keygen => [Entry(AsName, FTarget)]
    case KeyAdd => [Entry(AsName, FProfile), Entry(AsName, FKey), Entry(AsKeyType, FKeyType), Entry(AsOptionalName, FHost)]
    case KeyLifetime => [Entry(AsKeyRef, FKey), Entry(AsLifetime, FLifetime)]
    case KeyRoot => [Entry(AsKeyRoot, FRoot), Entry(AsTrimmed, FConfirm)]
    case VmAdd =>
      [Entry(AsName, FProfile), Entry(AsName, FAlias), Entry(AsHypervisor, FHypervisor),
       Entry(AsNeeded, FVm), Entry(AsNeeded, FUser)]
    case VmDockerContext => [Entry(AsName, FAlias)]
    case VmSync => [Entry(AsChecked, FRepin)]
    case VmAdoptKey =>
      [Entry(AsName, FKey), Entry(AsName, FProfile), Entry(AsName, FAlias), Entry(AsHypervisor, FHypervisor), Entry(AsNeeded, FVm), Entry(AsNeeded, FUser)]
    case VmSchedule => [Entry(AsChecked, FInstall)]
    case TokenDelete => [Entry(AsTarget, FTarget), Entry(AsNeeded, FHost)]
    case TokenConfigEdit => [Entry(AsBody, FBody)]
    case NamingKeyTemplate => [Entry(AsNamingScope, FProfile), Entry(AsKeyTemplate, FKeyName)]
    case SnapshotsPrune => [Entry(AsKeep, FKeep)]
    case Clean => [Entry(AsChecked, FAdopt)]
    case Bundle => [Entry(AsKeepOrNone, FKeep)]
    case SnapshotsRestore => [Entry(AsName, FId)]
    case ExportSelectionDelete => [Entry(AsSelectionName, FName)]
    case SshImport => [Entry(AsSource, FSource), Entry(AsChecked, FReplace)]
    case OwnerPinSet => [Entry(AsHeld, FPinCurrentRef), Entry(AsHeld, FPinNewRef), Entry(AsHeld, FPinConfirmRef)]
    case OwnerPinRemove => [Entry(AsHeld, FPinCurrentRef)]
    case OwnerForget => [Entry(AsForget, FConfirm)]
    case OwnerFingerprint => [Entry(AsChecked, FOn)]
    case FactoryReset => [Entry(AsReset, FConfirm)]
    case _ => []
  }

  function FieldList(es: seq<Entry>): (ks: seq<Field>)
    ensures |ks| == |es| && forall i :: 0 <= i < |es| ==> ks[i] == es[i].field
  {
    seq(|es|, i requires 0 <= i < |es| => es[i].field)
  }

  function Reads(f: Form, h: Home): (read: seq<Option<Value>>)
    ensures |read| == |Entries(f.action)|
    ensures forall i :: 0 <= i < |read| ==> read[i] == ReadAs(Entries(f.action)[i].how, f.Of(Entries(f.action)[i].field), h)
  {
    var entries := Entries(f.action);
    seq(|entries|, i requires 0 <= i < |entries| => ReadAs(entries[i].how, f.Of(entries[i].field), h))
  }

  // The actions whose values take several fields each.

  function SelectionReads(key: string, profile: string, all: string): seq<Option<Value>> {
    [Selection(key, profile, all), Checked(all)]
  }

  function TokenReads(h: Home, target: string, service: string, server: string, username: string, scope: string, mode: string,
                      ref: string): seq<Option<Value>>
  {
    var t := if Trim(service) != "" && Trim(target) == "composer" then "" else Trim(target);
    [Plain(server), Plain(username), Plain(scope), h.check(CToken, [t, Trim(service), Trim(server), Trim(username), Trim(scope)]),
     h.check(CDockerMode, [Trim(mode)]), if ref == "" then None else Some(Str(ref))]
  }

  function ToolReads(f: Form, tools: seq<string>): seq<Option<Value>> { [Some(Flags(Ticks(f, tools)))] }

  function SaveReads(h: Home, name: string, selection: string): seq<Option<Value>> { [h.check(CSelection, [Trim(name), selection])] }

  predicate Joint(a: Action) { a.KeyRegenPub? || a.TokenSet? || a.TokenInit? || a.ExportSelectionSave? }

  function JointReads(f: Form, h: Home): seq<Option<Value>>
    requires Joint(f.action)
  {
    match f.action
    case KeyRegenPub => SelectionReads(f.Get(FKey), f.Get(FProfile), f.Get(FAll))
    case TokenSet =>
      TokenReads(h, f.Get(FTarget), f.Get(FService), f.Get(FServer), f.Get(FUsername), f.Get(FScope), f.Get(FDockerMode), f.Get(FSecretRef))
    case TokenInit => ToolReads(f, TOOLS)
    case ExportSelectionSave => SaveReads(h, f.Get(FName), f.Get(FSelection))
  }

  /** The change a form asks for, or None when it is refused. */
  function Build(f: Form, h: Home): Option<Change<Kind>> {
    if f.action.NamingSet? then
      NamingSetOf(h, f.Get(FProfile), f.Get(FAlias), f.Get(FEnvs), f.Get(FRoles), f.Get(FEnforce), f.Get(FCodeFallback), f.Get(FStart))
    else if f.action.ProfileCode? then ProfileCodeOf(h, f.Get(FProfile), f.Get(FName), f.Get(FCode))
    else Made(What(f.action), if Joint(f.action) then JointReads(f, h) else Reads(f, h))
  }

  /** c has what a's listed fields have in f. */
  predicate SameListed(f: Form, c: Form) {
    f.action == c.action && forall k :: k in Listed(f.action) ==> c.Of(k) == f.Of(k)
  }

  /** The fields that are read. */
  function FieldsOf(es: seq<Entry>): set<Field> { if es == [] then {} else {es[0].field} + FieldsOf(es[1..]) }

  /** No field is read twice. */
  predicate NoRepeat(es: seq<Entry>) { es == [] || (es[0].field !in FieldsOf(es[1..]) && NoRepeat(es[1..])) }

  lemma {:induction false} FieldsAre(es: seq<Entry>)
    ensures forall k :: k in FieldsOf(es) <==> exists i :: 0 <= i < |es| && es[i].field == k
  {
    if es != [] {
      FieldsAre(es[1..]);
      assert forall i :: 0 < i < |es| ==> es[i] == es[1..][i - 1];
      assert forall i :: 0 <= i < |es| - 1 ==> es[1..][i] == es[i + 1];
    }
  }

  lemma ProfileFields(a: Action)
    requires a in {ProfileAdd, ProfileComment, ProfileEdit, ProfileDelete, ProfileCategory}
    ensures FieldsOf(Entries(a)) == Listed(a) && NoRepeat(Entries(a))
  {
    match a
    case ProfileAdd => assert FieldsOf(Entries(ProfileAdd)) == Listed(ProfileAdd) && NoRepeat(Entries(ProfileAdd));
    case ProfileComment => assert FieldsOf(Entries(ProfileComment)) == Listed(ProfileComment) && NoRepeat(Entries(ProfileComment));
    case ProfileEdit => assert FieldsOf(Entries(ProfileEdit)) == Listed(ProfileEdit) && NoRepeat(Entries(ProfileEdit));
    case ProfileDelete => assert FieldsOf(Entries(ProfileDelete)) == Listed(ProfileDelete) && NoRepeat(Entries(ProfileDelete));
    case ProfileCategory => assert FieldsOf(Entries(ProfileCategory)) == Listed(ProfileCategory) && NoRepeat(Entries(ProfileCategory));
    case _ =>
  }

  lemma HostFields(a: Action)
    requires a in {HostAdd, HostDelete, HostApply}
    ensures FieldsOf(Entries(a)) == Listed(a) && NoRepeat(Entries(a))
  {
    match a
    case HostAdd => assert FieldsOf(Entries(HostAdd)) == Listed(HostAdd) && NoRepeat(Entries(HostAdd));
    case HostDelete => assert FieldsOf(Entries(HostDelete)) == Listed(HostDelete) && NoRepeat(Entries(HostDelete));
    case HostApply => assert FieldsOf(Entries(HostApply)) == Listed(HostApply) && NoRepeat(Entries(HostApply));
    case _ =>
  }

  lemma HostEditFields()
    ensures FieldsOf(Entries(HostEdit)) == Listed(HostEdit) && NoRepeat(Entries(HostEdit))
  {
    assert NoRepeat(Entries(HostEdit));
  }

  lemma KeyFields(a: Action)
    requires a in {KeyDelete, KeyReserve, KeyUnreserve, Keygen, KeyAdd, KeyLifetime, KeyRoot}
    ensures FieldsOf(Entries(a)) == Listed(a) && NoRepeat(Entries(a))
  {
    match a
    case KeyDelete => assert FieldsOf(Entries(KeyDelete)) == Listed(KeyDelete) && NoRepeat(Entries(KeyDelete));
    case KeyReserve => assert FieldsOf(Entries(KeyReserve)) == Listed(KeyReserve) && NoRepeat(Entries(KeyReserve));
    case KeyUnreserve => assert FieldsOf(Entries(KeyUnreserve)) == Listed(KeyUnreserve) && NoRepeat(Entries(KeyUnreserve));
    case Keygen => assert FieldsOf(Entries(Keygen)) == Listed(Keygen) && NoRepeat(Entries(Keygen));
    case KeyAdd => assert FieldsOf(Entries(KeyAdd)) == Listed(KeyAdd) && NoRepeat(Entries(KeyAdd));
    case KeyLifetime => assert FieldsOf(Entries(KeyLifetime)) == Listed(KeyLifetime) && NoRepeat(Entries(KeyLifetime));
    case KeyRoot => assert FieldsOf(Entries(KeyRoot)) == Listed(KeyRoot) && NoRepeat(Entries(KeyRoot));
    case _ =>
  }

  lemma VmFields(a: Action)
    requires a in {VmAdd, VmDockerContext, VmSync, VmSchedule}
    ensures FieldsOf(Entries(a)) == Listed(a) && NoRepeat(Entries(a))
  {
    match a
    case VmAdd => assert FieldsOf(Entries(VmAdd)) == Listed(VmAdd) && NoRepeat(Entries(VmAdd));
    case VmDockerContext => assert FieldsOf(Entries(VmDockerContext)) == Listed(VmDockerContext) && NoRepeat(Entries(VmDockerContext));
    case VmSync => assert FieldsOf(Entries(VmSync)) == Listed(VmSync) && NoRepeat(Entries(VmSync));
    case VmSchedule => assert FieldsOf(Entries(VmSchedule)) == Listed(VmSchedule) && NoRepeat(Entries(VmSchedule));
    case _ =>
  }

  lemma AdoptFields()
    ensures FieldsOf(Entries(VmAdoptKey)) == Listed(VmAdoptKey)
  {
  }

  lemma AdoptSamples()
    ensures NoRepeat(Entries(VmAdoptKey))
  {
  }

  lemma TokenFields(a: Action)
    requires a in {TokenDelete, TokenConfigEdit, NamingKeyTemplate}
    ensures FieldsOf(Entries(a)) == Listed(a) && NoRepeat(Entries(a))
  {
    match a
    case TokenDelete => assert FieldsOf(Entries(TokenDelete)) == Listed(TokenDelete) && NoRepeat(Entries(TokenDelete));
    case TokenConfigEdit => assert FieldsOf(Entries(TokenConfigEdit)) == Listed(TokenConfigEdit) && NoRepeat(Entries(TokenConfigEdit));
    case NamingKeyTemplate => assert FieldsOf(Entries(NamingKeyTemplate)) == Listed(NamingKeyTemplate) && NoRepeat(Entries(NamingKeyTemplate));
    case _ =>
  }

  lemma SnapshotFields(a: Action)
    requires a in {SnapshotsPrune, Clean, Bundle, SnapshotsRestore, ExportSelectionDelete, SshImport}
    ensures FieldsOf(Entries(a)) == Listed(a) && NoRepeat(Entries(a))
  {
    match a
    case SnapshotsPrune => assert FieldsOf(Entries(SnapshotsPrune)) == Listed(SnapshotsPrune) && NoRepeat(Entries(SnapshotsPrune));
    case Clean => assert FieldsOf(Entries(Clean)) == Listed(Clean) && NoRepeat(Entries(Clean));
    case Bundle => assert FieldsOf(Entries(Bundle)) == Listed(Bundle) && NoRepeat(Entries(Bundle));
    case SnapshotsRestore => assert FieldsOf(Entries(SnapshotsRestore)) == Listed(SnapshotsRestore) && NoRepeat(Entries(SnapshotsRestore));
    case ExportSelectionDelete => assert FieldsOf(Entries(ExportSelectionDelete)) == Listed(ExportSelectionDelete) && NoRepeat(Entries(ExportSelectionDelete));
    case SshImport => assert FieldsOf(Entries(SshImport)) == Listed(SshImport) && NoRepeat(Entries(SshImport));
    case _ =>
  }

  lemma OwnerFields(a: Action)
    requires a in {OwnerPinSet, OwnerPinRemove, OwnerForget, OwnerFingerprint, FactoryReset}
    ensures FieldsOf(Entries(a)) == Listed(a) && NoRepeat(Entries(a))
  {
    match a
    case OwnerPinSet => assert FieldsOf(Entries(OwnerPinSet)) == Listed(OwnerPinSet) && NoRepeat(Entries(OwnerPinSet));
    case OwnerPinRemove => assert FieldsOf(Entries(OwnerPinRemove)) == Listed(OwnerPinRemove) && NoRepeat(Entries(OwnerPinRemove));
    case OwnerForget => assert FieldsOf(Entries(OwnerForget)) == Listed(OwnerForget) && NoRepeat(Entries(OwnerForget));
    case OwnerFingerprint => assert FieldsOf(Entries(OwnerFingerprint)) == Listed(OwnerFingerprint) && NoRepeat(Entries(OwnerFingerprint));
    case FactoryReset => assert FieldsOf(Entries(FactoryReset)) == Listed(FactoryReset) && NoRepeat(Entries(FactoryReset));
    case _ =>
  }

  /** An action whose values each take one field. */
  predicate Simple(a: Action) { !Joint(a) && !a.NamingSet? && !a.ProfileCode? }

  /** Each listed field is read, and no other. */
  lemma ListedRead(a: Action)
    requires Simple(a)
    ensures FieldsOf(Entries(a)) == Listed(a) && NoRepeat(Entries(a))
  {
    match a
    case ProfileAdd | ProfileComment | ProfileEdit | ProfileDelete | ProfileCategory => ProfileFields(a);
    case HostAdd | HostDelete | HostApply => HostFields(a);
    case HostEdit => HostEditFields();
    case KeyDelete | KeyReserve | KeyUnreserve | Keygen | KeyAdd | KeyLifetime | KeyRoot => KeyFields(a);
    case VmAdd | VmDockerContext | VmSync | VmSchedule => VmFields(a);
    case VmAdoptKey =>
      AdoptFields();
      AdoptSamples();
    case TokenDelete | TokenConfigEdit | NamingKeyTemplate => TokenFields(a);
    case SnapshotsPrune | Clean | Bundle | SnapshotsRestore | ExportSelectionDelete | SshImport => SnapshotFields(a);
    case OwnerPinSet | OwnerPinRemove | OwnerForget | OwnerFingerprint | FactoryReset => OwnerFields(a);
    case _ =>
  }

  lemma SameReads(f: Form, c: Form, h: Home)
    requires SameListed(f, c) && Simple(f.action)
    ensures Reads(c, h) == Reads(f, h)
  {
    ListedRead(f.action);
    FieldsAre(Entries(f.action));
    var x, y := Reads(f, h), Reads(c, h);
    forall i | 0 <= i < |x| ensures x[i] == y[i] { assert Entries(f.action)[i].field in Listed(f.action); }
  }

  lemma SameTools(f: Form, c: Form, tools: seq<string>)
    requires SameListed(f, c) && forall t :: t in tools ==> FTool(t) in Listed(f.action)
    ensures ToolReads(c, tools) == ToolReads(f, tools)
  {
    forall t | t in tools ensures c.Get(FTool(t)) == f.Get(FTool(t)) { assert c.Of(FTool(t)) == f.Of(FTool(t)); }
    assert Ticks(f, tools) == Ticks(c, tools);
  }

  lemma SameGets(f: Form, c: Form, fields: set<Field>)
    requires SameListed(f, c) && fields <= Listed(f.action)
    ensures forall k :: k in fields ==> c.Get(k) == f.Get(k)
  {
    forall k | k in fields ensures c.Get(k) == f.Get(k) { assert c.Of(k) == f.Of(k); }
  }

  lemma SameJoint(f: Form, c: Form, h: Home)
    requires SameListed(f, c) && Joint(f.action)
    ensures JointReads(c, h) == JointReads(f, h)
  {
    match f.action
    case KeyRegenPub => SameGets(f, c, {FKey, FProfile, FAll});
    case TokenSet => SameGets(f, c, {FTarget, FService, FServer, FUsername, FScope, FDockerMode, FSecretRef});
    case TokenInit => SameTools(f, c, TOOLS);
    case ExportSelectionSave => SameGets(f, c, {FName, FSelection});
  }

  /** A profile code is the one change that reads a field it is not listed with: the
      change does not depend on it, only whether the form is refused. */
  lemma ScopeUnused(h: Home, scope: string, name: string, code: string)
    ensures ProfileCodeOf(h, scope, name, code) == if NamingScope(h, scope).Some? then ProfileCodeOf(h, "", name, code) else None
  {
    assert NamingScope(h, "") == Some(Str(""));
  }

  lemma CarriedSame(f: Form)
    ensures SameListed(f, Carried(f))
    ensures forall k :: k in Listed(f.action) ==> Carried(f).Get(k) == f.Get(k)
  {
  }

  /** Whatever a form that is previewed builds, the form its confirmation posts builds. */
  lemma ConfirmedAsPreviewed(f: Form, h: Home)
    ensures Build(f, h).Some? ==> Build(Carried(f), h) == Build(f, h)
    ensures !f.action.ProfileCode? ==> Build(Carried(f), h) == Build(f, h)
    ensures Carried(f).action == f.action && Carried(f).fields.Keys == f.fields.Keys * Listed(f.action)
    ensures forall k :: k in Carried(f).fields ==> Carried(f).fields[k] == f.fields[k]
  {
    CarriedSame(f);
    if f.action.ProfileCode? {
      ProfileCodeExactly(f, h);
    } else if f.action.NamingSet? {
      assert {FProfile, FAlias, FEnvs, FRoles, FEnforce, FStart, FCodeFallback} == Listed(f.action);
    } else if Joint(f.action) {
      SameJoint(f, Carried(f), h);
    } else {
      SameReads(f, Carried(f), h);
    }
  }

  /** A profile code's form is refused where its confirmation is not exactly when the page
      it comes from has a scope that is no profile: the scope is read and not carried. */
  lemma ProfileCodeExactly(f: Form, h: Home)
    requires f.action.ProfileCode?
    ensures Build(f, h).Some? <==> Build(Carried(f), h).Some? && NamingScope(h, f.Get(FProfile)).Some?
    ensures Build(f, h) == Build(Carried(f), h) <==> Build(Carried(f), h).None? || NamingScope(h, f.Get(FProfile)).Some?
  {
    CarriedSame(f);
    assert FName in Listed(f.action) && FCode in Listed(f.action) && FProfile !in Listed(f.action);
    assert Carried(f).Get(FProfile) == "";
    ScopeUnused(h, f.Get(FProfile), f.Get(FName), f.Get(FCode));
  }

  /** A scope that is no name shows it. */
  lemma ProfileCodeReadsMore(h: Home, name: string, code: string)
    requires IsName(name) && Trim(name) == name && name in h.profiles && code != h.profiles[name]
    requires AllAlnum(code) && PlainText(code) == Some(code)
    ensures var f := Form(ProfileCode, map[FProfile := "/", FName := name, FCode := code]);
            Build(f, h).None? && Build(Carried(f), h).Some?
  {
    var f := Form(ProfileCode, map[FProfile := "/", FName := name, FCode := code]);
    CarriedSame(f);
    assert Trim("/") == "/" && !IsName("/");
    ScopeUnused(h, "/", name, code);
    assert NamingScope(h, "") == Some(Str("")) && Name(name) == Some(Str(name));
  }

  // What a change's values are.

  /** Fields whose value is a name there must be, or one there may be. */
  predicate NameField(a: Action, k: Field) {
    || (k.FTarget? && a.Keygen?) || k.FAlias? || k.FId? || (k.FProfile? && !a.NamingKeyTemplate?)
    || (k.FName? && !a.ExportSelectionDelete?) || (k.FKey? && !a.KeyLifetime?)
  }

  predicate OptionalNameField(a: Action, k: Field) {
    k.FCategory? || (k.FKeyName? && !a.NamingKeyTemplate?) || (k.FHost? && a.KeyAdd?)
  }

  predicate Ticked(k: Field) { k.FPurge? || k.FCreate? || k.FRepin? || k.FInstall? || k.FAdopt? || k.FReplace? || k.FOn? }

  predicate NeededField(a: Action, k: Field) {
    ((k.FHostname? || k.FUser?) && !a.HostEdit?) || k.FVm? || (k.FHost? && a.TokenDelete?)
  }

  predicate EditedField(a: Action, k: Field) { a.HostEdit? && (k.FHostname? || k.FUser?) }

  predicate CommentField(k: Field) { k.FKeyComment? || k.FFor? || k.FNote? || k.FKeyType? }

  /** v is what the text of a field says: a name, a tick, a port, a number, a line. */
  predicate Says(a: Action, k: Field, text: string, v: Value) {
    var t := Trim(text);
    && (NameField(a, k) ==> v == Str(t) && IsName(t))
    && (OptionalNameField(a, k) ==> v == Str(t) && (t == "" || IsName(t)))
    && (Ticked(k) ==> v == Flag(text == "1"))
    && (k.FPort? ==> v.MaybeNum? && if t == "" then v.p.None? else SignedAtoi(t) == v.p && v.p.Some? && 1 <= v.p.value <= 65535)
    && (k.FKeep? ==> v.Num? && 0 <= v.n <= 1000 && (SignedAtoi(t) == Some(v.n) || (a.Bundle? && t == "" && v.n == 0)))
    && (NeededField(a, k) ==> v == Str(t) && t != "" && NoControl(t))
    && (EditedField(a, k) ==> v == Maybe(if t == "" then None else Some(t)) && NoControl(t))
    && (CommentField(k) ==> v == Str(t) && NoControl(t))
  }

  /** The way of reading says what the field does. */
  predicate Fit(a: Action, e: Entry) {
    && (NameField(a, e.field) ==> e.how.AsName?)
    && (OptionalNameField(a, e.field) ==> e.how.AsOptionalName?)
    && (Ticked(e.field) ==> e.how.AsChecked?)
    && (e.field.FPort? ==> e.how.AsPort?)
    && (e.field.FKeep? ==> e.how.AsKeep? || (a.Bundle? && e.how.AsKeepOrNone?))
    && (NeededField(a, e.field) ==> e.how.AsNeeded?)
    && (EditedField(a, e.field) ==> e.how.AsEdit?)
    && (CommentField(e.field) ==> e.how.AsPlain? || e.how.AsShort? || e.how.AsKeyType?)
  }

  lemma FitSays(a: Action, e: Entry, field: Option<string>, h: Home)
    requires Fit(a, e) && ReadAs(e.how, field, h).Some?
    ensures Says(a, e.field, if field.None? then "" else field.value, ReadAs(e.how, field, h).value)
  {
    if NameField(a, e.field) || OptionalNameField(a, e.field) {
    } else if NeededField(a, e.field) || EditedField(a, e.field) {
    } else if CommentField(e.field) {
    } else {
    }
  }

  predicate AllFit(a: Action) { forall e :: e in Entries(a) ==> Fit(a, e) }

  lemma ProfileFit(a: Action)
    requires a.ProfileAdd? || a.ProfileComment? || a.ProfileEdit?
    ensures AllFit(a)
  {
    match a
    case ProfileAdd => assert AllFit(ProfileAdd);
    case ProfileComment => assert AllFit(ProfileComment);
    case ProfileEdit => assert AllFit(ProfileEdit);
    case _ =>
  }

  lemma CategoryFit(a: Action)
    requires a.ProfileDelete? || a.ProfileCategory?
    ensures AllFit(a)
  {
    match a
    case ProfileDelete => assert AllFit(ProfileDelete);
    case ProfileCategory => assert AllFit(ProfileCategory);
    case _ =>
  }

  lemma HostAddFit()
    ensures AllFit(HostAdd)
  {
  }

  lemma HostEditFit()
    ensures AllFit(HostEdit)
  {
  }

  lemma HostFit(a: Action)
    requires a.HostDelete? || a.HostApply?
    ensures AllFit(a)
  {
    match a
    case HostDelete => assert AllFit(HostDelete);
    case HostApply => assert AllFit(HostApply);
    case _ =>
  }

  lemma KeyFit(a: Action)
    requires a.KeyDelete? || a.KeyReserve? || a.KeyUnreserve? || a.Keygen?
    ensures AllFit(a)
  {
    match a
    case KeyDelete => assert AllFit(KeyDelete);
    case KeyReserve => assert AllFit(KeyReserve);
    case KeyUnreserve => assert AllFit(KeyUnreserve);
    case Keygen => assert AllFit(Keygen);
    case _ =>
  }

  lemma KeyAddFit()
    ensures AllFit(KeyAdd)
  {
  }

  lemma LifetimeFit(a: Action)
    requires a.KeyLifetime? || a.KeyRoot?
    ensures AllFit(a)
  {
    match a
    case KeyLifetime => assert AllFit(KeyLifetime);
    case KeyRoot => assert AllFit(KeyRoot);
    case _ =>
  }

  lemma VmAddFit()
    ensures AllFit(VmAdd)
  {
  }

  lemma VmFit(a: Action)
    requires a.VmDockerContext? || a.VmSync? || a.VmSchedule?
    ensures AllFit(a)
  {
    match a
    case VmDockerContext => assert AllFit(VmDockerContext);
    case VmSync => assert AllFit(VmSync);
    case VmSchedule => assert AllFit(VmSchedule);
    case _ =>
  }

  lemma AdoptFit()
    ensures AllFit(VmAdoptKey)
  {
  }

  lemma TokenFit(a: Action)
    requires a.TokenDelete? || a.TokenConfigEdit?
    ensures AllFit(a)
  {
    match a
    case TokenDelete => assert AllFit(TokenDelete);
    case TokenConfigEdit => assert AllFit(TokenConfigEdit);
    case _ =>
  }

  lemma ImportFit(a: Action)
    requires a.NamingKeyTemplate? || a.SshImport?
    ensures AllFit(a)
  {
    match a
    case NamingKeyTemplate => assert AllFit(NamingKeyTemplate);
    case SshImport => assert AllFit(SshImport);
    case _ =>
  }

  lemma SnapshotFit(a: Action)
    requires a.SnapshotsPrune? || a.Clean? || a.Bundle? || a.SnapshotsRestore? || a.ExportSelectionDelete?
    ensures AllFit(a)
  {
    match a
    case SnapshotsPrune => assert AllFit(SnapshotsPrune);
    case Clean => assert AllFit(Clean);
    case Bundle => assert AllFit(Bundle);
    case SnapshotsRestore => assert AllFit(SnapshotsRestore);
    case ExportSelectionDelete => assert AllFit(ExportSelectionDelete);
    case _ =>
  }

  lemma OwnerFit(a: Action)
    requires a.OwnerPinSet? || a.OwnerPinRemove?
    ensures AllFit(a)
  {
    match a
    case OwnerPinSet => assert AllFit(OwnerPinSet);
    case OwnerPinRemove => assert AllFit(OwnerPinRemove);
    case _ =>
  }

  lemma ForgetFit(a: Action)
    requires a.OwnerForget? || a.OwnerFingerprint? || a.FactoryReset?
    ensures AllFit(a)
  {
    match a
    case OwnerForget => assert AllFit(OwnerForget);
    case OwnerFingerprint => assert AllFit(OwnerFingerprint);
    case FactoryReset => assert AllFit(FactoryReset);
    case _ =>
  }

  lemma EntriesFit(a: Action)
    ensures AllFit(a)
  {
    match a
    case ProfileAdd | ProfileComment | ProfileEdit => ProfileFit(a);
    case ProfileDelete | ProfileCategory => CategoryFit(a);
    case HostAdd => HostAddFit();
    case HostEdit => HostEditFit();
    case HostDelete | HostApply => HostFit(a);
    case KeyDelete | KeyReserve | KeyUnreserve | Keygen => KeyFit(a);
    case KeyAdd => KeyAddFit();
    case KeyLifetime | KeyRoot => LifetimeFit(a);
    case VmAdd => VmAddFit();
    case VmDockerContext | VmSync | VmSchedule => VmFit(a);
    case VmAdoptKey => AdoptFit();
    case TokenDelete | TokenConfigEdit => TokenFit(a);
    case NamingKeyTemplate | SshImport => ImportFit(a);
    case SnapshotsPrune | Clean | Bundle | SnapshotsRestore | ExportSelectionDelete => SnapshotFit(a);
    case OwnerPinSet | OwnerPinRemove => OwnerFit(a);
    case OwnerForget | OwnerFingerprint | FactoryReset => ForgetFit(a);
    case _ =>
  }

  /** Every value of a change is what the form's field of that name says, and every name in
      it is a name. */
  lemma ValuesSay(f: Form, h: Home, i: nat)
    requires Simple(f.action) && Build(f, h).Some? && i < |Build(f, h).value.values|
    ensures var c := Build(f, h).value;
            |c.kind.fields| == |c.values| && Says(f.action, c.kind.fields[i], f.Get(c.kind.fields[i]), c.values[i])
  {
    var es, read := Entries(f.action), Reads(f, h);
    BuildSimple(f, h);
    EntriesFit(f.action);
    assert read[i] in read;
    FitSays(f.action, es[i], f.Of(es[i].field), h);
  }

  /** A line of text: no control character, and no longer than a form may send. */
  predicate LineOk(t: string) { |t| <= 512 && forall c :: c in t ==> ' ' <= c && c as int != 127 }

  /** A name: letters, digits, dots, underscores and dashes, the first a letter or digit. */
  predicate NameOk(t: string) {
    && 1 <= |t| <= 128 && t[0] !in {'.', '_', '-'}
    && forall c :: c in t ==> 'A' <= c <= 'Z' || 'a' <= c <= 'z' || '0' <= c <= '9' || c in {'.', '_', '-'}
  }

  predicate NumberOk(t: string, low: int, high: int) { SignedAtoi(t).Some? && low <= SignedAtoi(t).value <= high }

  /** Which texts each way of reading takes: all others are refused. */
  lemma NamesTaken(v: string, h: Home)
    ensures var t := Trim(v);
            && (ReadAs(AsName, Some(v), h).Some? <==> NameOk(t))
            && (ReadAs(AsOptionalName, Some(v), h).Some? <==> t == "" || NameOk(t))
            && (ReadAs(AsNamingScope, Some(v), h).Some? <==> t == "" || (NameOk(t) && t in h.profiles))
  {
    NameIs(Trim(v));
  }

  lemma NameIs(t: string)
    ensures IsName(t) <==> NameOk(t)
  {
    if IsName(t) {
      forall c | c in t ensures NameChar(c) { var i :| 0 <= i < |t| && t[i] == c; }
    }
    if NameOk(t) {
      forall i | 0 <= i < |t| ensures NameChar(t[i]) { assert t[i] in t; }
    }
  }

  lemma LineIs(t: string)
    ensures NoControl(t) && |t| <= 512 <==> LineOk(t)
  {
    if NoControl(t) {
      forall c | c in t ensures !Control(c) { var i :| 0 <= i < |t| && t[i] == c; }
    }
    if LineOk(t) {
      forall i | 0 <= i < |t| ensures !Control(t[i]) { assert t[i] in t; }
    }
  }

  lemma LinesTaken(v: string, h: Home)
    ensures var t := Trim(v);
            && (ReadAs(AsPlain, Some(v), h).Some? <==> LineOk(t)) && (ReadAs(AsEdit, Some(v), h).Some? <==> LineOk(t))
            && (ReadAs(AsNeeded, Some(v), h).Some? <==> LineOk(t) && t != "")
            && (ReadAs(AsShort, Some(v), h).Some? <==> LineOk(t) && |t| <= 200)
            && (ReadAs(AsTags, Some(v), h).Some? <==> LineOk(t))
  {
    LineIs(Trim(v));
  }

  lemma ChoicesTaken(v: string, h: Home)
    ensures var t := Trim(v);
            && (ReadAs(AsScope, Some(v), h).Some? <==> t in {"", "per_service", "shared"})
            && (ReadAs(AsEditScope, Some(v), h).Some? <==> t in {"", "per_service", "shared"})
  {
    assert PlainText("per_service") == Some("per_service") && PlainText("shared") == Some("shared") && PlainText("") == Some("") by {
      assert Trim("per_service") == "per_service" && Trim("shared") == "shared" && Trim("") == "";
    }
  }

  lemma NumbersTaken(v: string, h: Home)
    ensures var t := Trim(v);
            && (ReadAs(AsPort, Some(v), h).Some? <==> t == "" || NumberOk(t, 1, 65535))
            && (ReadAs(AsKeep, Some(v), h).Some? <==> NumberOk(t, 0, 1000))
            && (ReadAs(AsKeepOrNone, Some(v), h).Some? <==> t == "" || NumberOk(t, 0, 1000))
  {
  }

  /** Text of several lines: no control character but tabs and ends of lines. */
  predicate TextOk(v: string) { forall c :: c in v ==> c in {'\n', '\r', '\t'} || (' ' <= c && c as int != 127) }

  lemma TextIs(v: string)
    ensures TextOnly(v) <==> TextOk(v)
  {
    if TextOnly(v) {
      forall c | c in v ensures Control(c) ==> c in {'\n', '\r', '\t'} { var i :| 0 <= i < |v| && v[i] == c; }
    }
    if TextOk(v) {
      forall i | 0 <= i < |v| ensures Control(v[i]) ==> v[i] in {'\n', '\r', '\t'} { assert v[i] in v; }
    }
  }

  /** Host specs, a token configuration, a lifetime and a key root are what their own checks
      make of them, the first two if they are text. */
  lemma TextsTaken(v: string, h: Home)
    ensures ReadAs(AsSpecs, Some(v), h) == if TextOk(v) && |v| <= 16384 then h.check(CSpecs, [v]) else None
    ensures ReadAs(AsBody, Some(v), h) == if TextOk(v) && h.check(CNamesOnly, [v]).Some? then Some(Str(v)) else None
    ensures ReadAs(AsLifetime, Some(v), h) == if Trim(v) == "default" then Some(Num(0)) else h.check(CLifetime, [Trim(v)])
    ensures ReadAs(AsKeyRoot, Some(v), h) == if Trim(v) == "" then None else h.check(CKeyRoot, [Trim(v)])
  {
    TextIs(v);
  }

  lemma KeyRefTaken(v: string)
    ensures KeyRef(v).Some? <==> exists p, n :: NameOk(p) && NameOk(n) && Trim(v) == p + "/" + n
    ensures KeyRef(v).Some? ==>
              KeyRef(v).value.List? && |KeyRef(v).value.l| == 2 && Trim(v) == KeyRef(v).value.l[0] + "/" + KeyRef(v).value.l[1]
  {
    var t := Trim(v);
    var i := IndexOf(t, '/');
    if KeyRef(v).Some? {
      NameIs(t[..i]);
      NameIs(t[i + 1..]);
      assert t == t[..i] + "/" + t[i + 1..];
    }
    if p, n :| NameOk(p) && NameOk(n) && t == p + "/" + n {
      assert '/' !in p;
      IndexOfFirst(p, '/', n);
      assert t == p + ['/'] + n && t[..|p|] == p && t[|p| + 1..] == n;
      NameIs(p);
      NameIs(n);
    }
  }

  /** A secret is what its reference stands for, and nothing without one, or with one that
      stands for nothing. */
  lemma SecretsHeld(v: string, h: Home)
    ensures ReadAs(AsHeld, Some(v), h) ==
            Some(Str(if v != "" && h.secret(v).Some? then h.secret(v).value else ""))
  {
  }

  /** The value of a rule a form changes, or leaves as it is. */
  function NewText(v: string, now: string): Value { Maybe(if Trim(v) == now then None else Some(Trim(v))) }

  function NewList(v: string, now: seq<string>): Value {
    MaybeList(if NotEmpty(Split(Trim(v), ',')) == now then None else Some(NotEmpty(Split(Trim(v), ','))))
  }

  function NewStart(v: string, now: int): Value {
    var n := if Trim(v) == "1" then 1 else 0;
    MaybeNum(if n == now then None else Some(n))
  }

  lemma DiffersSays(v: string, now: string, allowed: set<string>)
    requires Differs(v, now, allowed).Some?
    ensures Differs(v, now, allowed) == Some(NewText(v, now))
    ensures allowed != {} ==> Trim(v) == "" || Trim(v) in allowed
  {
  }

  lemma DiffersListSays(v: string, now: seq<string>)
    requires DiffersList(v, now).Some?
    ensures DiffersList(v, now) == Some(NewList(v, now))
    ensures forall e :: e in NotEmpty(Split(Trim(v), ',')) ==> NameOk(e)
  {
    forall e ensures IsName(e) <==> NameOk(e) { NameIs(e); }
  }

  lemma DiffersStartSays(v: string, now: int)
    requires DiffersStart(v, now).Some?
    ensures DiffersStart(v, now) == Some(NewStart(v, now)) && Trim(v) in {"", "0", "1"}
  {
  }

  /** A naming change is for a profile there is, or for all; each of its values is there
      exactly when it differs from what is stored, and some value does. */
  lemma NamingSays(h: Home, profile: string, alias: string, envs: string, roles: string, enforce: string, fallback: string, start: string)
    requires NamingSetOf(h, profile, alias, envs, roles, enforce, fallback, start).Some?
    ensures var c, cur := NamingSetOf(h, profile, alias, envs, roles, enforce, fallback, start).value, NamingRules(h, Trim(profile));
            && |c.values| == 7 && c.kind == NamingSetKind()
            && c.values[0] == Str(Trim(profile)) && (Trim(profile) == "" || Trim(profile) in h.profiles)
            && c.values[1] == NewText(alias, cur.alias) && c.values[2] == NewList(envs, cur.envs) && c.values[3] == NewList(roles, cur.roles)
            && c.values[4] == NewText(enforce, cur.enforce) && c.values[5] == NewText(fallback, cur.codeFallback)
            && c.values[6] == NewStart(start, cur.start)
            && exists i :: 1 <= i < 7 && !Unset(c.values[i])
  {
    var cur := NamingRules(h, Trim(profile));
    RulesRead(h, profile, alias, envs, roles, enforce, fallback, start);
    DiffersSays(alias, cur.alias, {});
    DiffersListSays(envs, cur.envs);
    DiffersListSays(roles, cur.roles);
    DiffersSays(enforce, cur.enforce, {"off", "warn", "error"});
    DiffersSays(fallback, cur.codeFallback, {"none", "profile"});
    DiffersStartSays(start, cur.start);
  }

  /** Its envs and roles are names, and its choices among those there are. */
  lemma NamingChecked(h: Home, profile: string, alias: string, envs: string, roles: string, enforce: string, fallback: string, start: string)
    requires NamingSetOf(h, profile, alias, envs, roles, enforce, fallback, start).Some?
    ensures Trim(enforce) in {"", "off", "warn", "error"} && Trim(fallback) in {"", "none", "profile"} && Trim(start) in {"", "0", "1"}
    ensures forall e :: e in NotEmpty(Split(Trim(envs), ',')) + NotEmpty(Split(Trim(roles), ',')) ==> NameOk(e)
  {
    var cur := NamingRules(h, Trim(profile));
    RulesRead(h, profile, alias, envs, roles, enforce, fallback, start);
    DiffersListSays(envs, cur.envs);
    DiffersListSays(roles, cur.roles);
    DiffersSays(enforce, cur.enforce, {"off", "warn", "error"});
    DiffersSays(fallback, cur.codeFallback, {"none", "profile"});
    DiffersStartSays(start, cur.start);
  }

  lemma RulesRead(h: Home, profile: string, alias: string, envs: string, roles: string, enforce: string, fallback: string, start: string)
    requires NamingSetOf(h, profile, alias, envs, roles, enforce, fallback, start).Some?
    ensures var c, cur := NamingSetOf(h, profile, alias, envs, roles, enforce, fallback, start).value, NamingRules(h, Trim(profile));
            && |c.values| == 7 && c.kind == NamingSetKind() && c.values[0] == Str(Trim(profile)) && (Trim(profile) == "" || Trim(profile) in h.profiles)
            && Differs(alias, cur.alias, {}) == Some(c.values[1])
            && DiffersList(envs, cur.envs) == Some(c.values[2]) && DiffersList(roles, cur.roles) == Some(c.values[3])
            && Differs(enforce, cur.enforce, {"off", "warn", "error"}) == Some(c.values[4])
            && Differs(fallback, cur.codeFallback, {"none", "profile"}) == Some(c.values[5])
            && DiffersStart(start, cur.start) == Some(c.values[6])
            && exists i :: 1 <= i < 7 && !Unset(c.values[i])
  {
    var cur := NamingRules(h, Trim(profile));
    var all := RulesAsRead(NamingScope(h, profile).value, cur, alias, envs, roles, enforce, fallback, start);
    MadeEach(NamingSetKind(), all);
  }

  lemma MadeEach<K>(kind: K, read: seq<Option<Value>>)
    requires Made(kind, read).Some?
    ensures var c := Made(kind, read).value;
            c.kind == kind && |c.values| == |read| && forall i :: 0 <= i < |read| ==> read[i] == Some(c.values[i])
  {
    assert forall i :: 0 <= i < |read| ==> read[i] in read;
  }

  /** A profile's new code is letters and digits, and not the one it has. */
  lemma CodeSays(f: Form, h: Home)
    requires f.action.ProfileCode? && Build(f, h).Some?
    ensures var c, name, code := Build(f, h).value, Trim(f.Get(FName)), Trim(f.Get(FCode));
            && c.kind.fields == [FName, FCode] && c.values == [Str(name), Str(code)]
            && name in h.profiles && h.profiles[name] != code && AllAlnum(code)
  {
  }

  /** A token's tool is checked as the one the form has, or as none when the form's is what
      it reads beside a service. */
  lemma TokenSays(f: Form, h: Home)
    requires f.action.TokenSet? && Build(f, h).Some?
    ensures var target, service, server, user, scope :=
              Trim(f.Get(FTarget)), Trim(f.Get(FService)), Trim(f.Get(FServer)), Trim(f.Get(FUsername)), Trim(f.Get(FScope));
            var c, args := Build(f, h).value, [if service != "" && target == "composer" then "" else target, service, server, user, scope];
            && |c.values| == 6 && c.values[0] == Str(server) && c.values[1] == Str(user) && c.values[2] == Str(scope)
            && h.check(CToken, args) == Some(c.values[3]) && h.check(CDockerMode, [Trim(f.Get(FDockerMode))]) == Some(c.values[4])
            && c.values[5] == Str(f.Get(FSecretRef)) && f.Get(FSecretRef) != ""
  {
    var read := JointReads(f, h);
    BuildJoint(f, h);
    assert read[0] in read && read[1] in read && read[2] in read && read[3] in read && read[4] in read && read[5] in read;
  }

  // No listed field could be left out.

  function Minus(f: Form, k: Field): Form { Form(f.action, map j | j in f.fields && j != k :: f.fields[j]) }

  const TEMPLATE := "{profile}_{alias}-{algo}"
  const SELECTION := "{\"version\":1}"
  const BUNDLE := "authama-20250101-000000.age"

  /** A text each way of reading takes, and tells from no text at all. */
  function SampleOf(how: Reader): string {
    match how
    case AsScope | AsEditScope => "shared"
    case AsKeyType => "rsa"
    case AsPort | AsKeep | AsKeepOrNone | AsChecked | AsLifetime => "1"
    case AsKeyRef => "a/a"
    case AsForget => "forget"
    case AsReset => "reset"
    case AsKeyRoot => "keys"
    case AsSpecs => "a a a"
    case AsBody => "{}"
    case AsHypervisor => "lima"
    case AsKeyTemplate => TEMPLATE
    case AsTarget => "npm"
    case AsSource => "ssh"
    case _ => "a"
  }

  /** Values the program's own checks let through, in a home that has the profile, host and
      bundle they name. All others are refused; of those asked about below the program
      refuses the same: an empty value, a tool's token without its server or user name, and
      a token with neither tool nor service. */
  predicate Passes(c: Check, args: seq<string>) {
    match c
    case CSpecs => args == ["a a a"]
    case CLifetime => args == ["1"]
    case CKeyRoot => args == ["keys"]
    case CHypervisor => args == ["lima"]
    case CTarget => args == ["npm"]
    case CToken =>
      args in {["git", "", "a", "a", "a"], ["git", "", "a", "a", ""], ["", "gitea", "a", "a", ""]}
    case CDockerMode => args == [""] || args == ["login"]
    case CNamesOnly => args == ["{}"]
    case CKeyTemplate => args == [TEMPLATE]
    case CSelection => args == ["a", SELECTION]
    case CSelectionName => args == ["a"]
    case CSource => args == ["ssh"]
    case CSelected => args == [] || args == ["a"]
    case CBundle => args == [BUNDLE]
    case CHost => args == ["a"]
  }

  function Passed(c: Check, args: seq<string>): Option<Value> { if Passes(c, args) then Some(List(args)) else None }

  /** A home that has the profile "a". */
  function Willing(): Home { Home(map["a" := ""], map[], ref => Some(ref), Passed) }

  /** A way of reading that takes its sample, and notices when the field is missing. */
  ghost predicate Notices(how: Reader) {
    ReadAs(how, Some(SampleOf(how)), Willing()).Some? && ReadAs(how, None, Willing()) != ReadAs(how, Some(SampleOf(how)), Willing())
  }

  lemma LetterA()
    ensures Trim("a") == "a" && IsName("a") && NoControl("a") && TextOnly("a") && Trim("") == ""
  {
  }

  lemma NameNotices()
    ensures Notices(AsName) && Notices(AsOptionalName) && Notices(AsNamingScope)
  {
    LetterA();
    assert Name("a") == Some(Str("a")) && Name("").None?;
  }

  lemma TextNotices(how: Reader)
    requires how in {AsPlain, AsEdit, AsNeeded, AsShort, AsTrimmed, AsHeld, AsTags}
    ensures Notices(how)
  {
    LetterA();
    assert PlainText("a") == Some("a") && PlainText("") == Some("");
  }

  lemma CheckNotices(how: Reader)
    requires how in {AsLifetime, AsKeyRoot, AsSpecs, AsTarget, AsSelectionName, AsSource}
    ensures Notices(how)
  {
    LetterA();
    assert Trim("1") == "1" && Trim("keys") == "keys" && Trim("npm") == "npm" && "1" != "default";
    assert TextOnly("a a a") && [""][0] == "";
  }

  lemma BodyNotices()
    ensures Notices(AsBody)
  {
    assert TextOnly("{}") && [""][0] == "";
  }

  /** A value that is a line of text and passes its check, as an empty one does not. */
  lemma PlainCheckNotices(how: Reader, c: Check, v: string)
    requires (how, c) in {(AsHypervisor, CHypervisor), (AsKeyTemplate, CKeyTemplate)} && v == SampleOf(how)
    requires PlainText(v) == Some(v) && Passes(c, [v]) && !Passes(c, [""])
    ensures Notices(how)
  {
    assert Trim("") == "" && PlainText("") == Some("");
  }

  lemma TextCheckNotices(how: Reader)
    requires how in {AsHypervisor, AsKeyTemplate}
    ensures Notices(how)
  {
    assert Trim("lima") == "lima" && Trim(TEMPLATE) == TEMPLATE && [""][0] == "";
    if how == AsHypervisor { PlainCheckNotices(how, CHypervisor, "lima"); } else { PlainCheckNotices(how, CKeyTemplate, TEMPLATE); }
  }

  lemma ChoiceNotices(how: Reader)
    requires how in {AsScope, AsEditScope, AsKeyType, AsChecked, AsForget, AsReset}
    ensures Notices(how)
  {
    LetterA();
    assert Trim("shared") == "shared" && Trim("rsa") == "rsa" && Trim("forget") == "forget" && Trim("reset") == "reset";
    assert PlainText("shared") == Some("shared") && PlainText("rsa") == Some("rsa") && PlainText("") == Some("");
  }

  lemma NumberNotices(how: Reader)
    requires how in {AsPort, AsKeep, AsKeepOrNone}
    ensures Notices(how)
  {
    assert Trim("1") == "1" && Trim("") == "";
    assert "1"[..0] == "" && NumberOf("1") == 10 * NumberOf("") + DigitValue('1');
    assert SignedAtoi("1") == Some(1) && SignedAtoi("").None?;
  }

  lemma RefNotices()
    ensures Notices(AsKeyRef)
  {
    LetterA();
    IndexOfFirst("a", '/', "a");
    assert Trim("a/a") == "a/a" == "a" + ['/'] + "a";
    assert "a/a"[..1] == "a" && "a/a"[2..] == "a";
    assert KeyRef("").None?;
  }

  lemma AnyNotices(how: Reader)
    ensures Notices(how)
  {
    match how
    case AsName | AsOptionalName | AsNamingScope => NameNotices();
    case AsPlain | AsEdit | AsNeeded | AsShort | AsTrimmed | AsHeld | AsTags => TextNotices(how);
    case AsBody => BodyNotices();
    case AsHypervisor | AsKeyTemplate => TextCheckNotices(how);
    case AsScope | AsEditScope | AsKeyType | AsChecked | AsForget | AsReset => ChoiceNotices(how);
    case AsPort | AsKeep | AsKeepOrNone => NumberNotices(how);
    case AsKeyRef => RefNotices();
    case _ => CheckNotices(how);
  }

  /** A form with a sample for each of its entries. */
  function Filled(es: seq<Entry>): map<Field, string> {
    if es == [] then map[] else Filled(es[1..])[es[0].field := SampleOf(es[0].how)]
  }

  lemma {:induction false} FilledHas(es: seq<Entry>, i: nat)
    requires NoRepeat(es) && i < |es|
    ensures es[i].field in Filled(es) && Filled(es)[es[i].field] == SampleOf(es[i].how)
  {
    if i > 0 {
      FilledHas(es[1..], i - 1);
      FieldsAre(es[1..]);
      assert es[1..][i - 1] == es[i];
    }
  }

  lemma MadeDiffers<K>(kind: K, x: seq<Option<Value>>, y: seq<Option<Value>>, i: nat)
    requires i < |x| == |y| && None !in x && x[i] != y[i]
    ensures Made(kind, x).Some? && Made(kind, y) != Made(kind, x)
  {
    if None !in y {
      assert Made(kind, x).value.values[i] == x[i].value && Made(kind, y).value.values[i] == y[i].value;
      assert x[i] in x && y[i] in y;
    }
  }

  /** k is missed: some home builds the form, and builds something else, or nothing,
      without it. */
  ghost predicate Missed(f: Form, k: Field, h: Home) {
    Build(f, h).Some? && Build(Minus(f, k), h) != Build(f, h)
  }

  lemma BuildJoint(f: Form, h: Home)
    requires Joint(f.action)
    ensures Build(f, h) == Made(What(f.action), JointReads(f, h))
  {
  }

  lemma MissedOf(f: Form, k: Field, kind: Kind, x: seq<Option<Value>>, y: seq<Option<Value>>, i: nat)
    requires Build(f, Willing()) == Made(kind, x) && Build(Minus(f, k), Willing()) == Made(kind, y)
    requires i < |x| == |y| && None !in x && x[i] != y[i]
    ensures Missed(f, k, Willing())
  {
    MadeDiffers(kind, x, y, i);
  }

  lemma BuildSimple(f: Form, h: Home)
    requires Simple(f.action)
    ensures Build(f, h) == Made(What(f.action), Reads(f, h))
  {
  }

  lemma FilledReads(a: Action, i: nat)
    requires NoRepeat(Entries(a)) && i < |Entries(a)|
    ensures var f := Form(a, Filled(Entries(a)));
            var x, y := Reads(f, Willing()), Reads(Minus(f, Entries(a)[i].field), Willing());
            x[i].Some? && y[i] != x[i]
  {
    var es, f := Entries(a), Form(a, Filled(Entries(a)));
    var g := Minus(f, es[i].field);
    FilledHas(es, i);
    AnyNotices(es[i].how);
    assert f.Of(es[i].field) == Some(SampleOf(es[i].how)) && g.Of(es[i].field) == None;
  }

  lemma FilledAll(a: Action)
    requires NoRepeat(Entries(a))
    ensures None !in Reads(Form(a, Filled(Entries(a))), Willing())
  {
    var x := Reads(Form(a, Filled(Entries(a))), Willing());
    forall j | 0 <= j < |x| ensures x[j].Some? { FilledReads(a, j); }
  }

  lemma FilledBuilds(a: Action, i: nat)
    requires Simple(a) && NoRepeat(Entries(a)) && i < |Entries(a)|
    ensures Missed(Form(a, Filled(Entries(a))), Entries(a)[i].field, Willing())
  {
    var f := Form(a, Filled(Entries(a)));
    var g := Minus(f, Entries(a)[i].field);
    FilledAll(a);
    FilledReads(a, i);
    BuildSimple(f, Willing());
    BuildSimple(g, Willing());
    MissedOf(f, Entries(a)[i].field, What(a), Reads(f, Willing()), Reads(g, Willing()), i);
  }

  lemma JointMissed(f: Form, k: Field, x: seq<Option<Value>>, y: seq<Option<Value>>, i: nat)
    requires Joint(f.action) && JointReads(f, Willing()) == x && JointReads(Minus(f, k), Willing()) == y
    requires i < |x| == |y| && None !in x && x[i] != y[i]
    ensures Missed(f, k, Willing())
  {
    BuildJoint(f, Willing());
    BuildJoint(Minus(f, k), Willing());
    MissedOf(f, k, What(f.action), x, y, i);
  }

  /** Of the three ways to select keys, each is missed alone. */
  lemma SelectionReadsEach()
    ensures Selection("a/a", "", "").Some? && Selection("", "a", "").Some? && Selection("", "", "1").Some?
    ensures Selection("", "", "").None?
  {
    LetterA();
    RefNotices();
    NameNotices();
    assert Trim("1") == "1" && Trim("a/a") == "a/a";
  }

  lemma SelectionNeeds(k: Field, v: string) returns (f: Form)
    requires (k, v) in {(FKey, "a/a"), (FProfile, "a"), (FAll, "1")}
    ensures f.action == KeyRegenPub && Missed(f, k, Willing())
  {
    f := Form(KeyRegenPub, map[k := v]);
    SelectionReadsEach();
    var g := Minus(f, k);
    assert g.fields == map[];
    var x, y := JointReads(f, Willing()), JointReads(g, Willing());
    assert y[0] == Selection("", "", "") && x[0].Some? && x[1].Some?;
    JointMissed(f, k, x, y, 0);
  }

  const TOKEN_FIELDS: seq<Field> := [FTarget, FService, FServer, FUsername, FScope, FDockerMode, FSecretRef]

  /** A Composer service's token to show the service, a tool's to show the other fields. */
  function TokenTexts(i: nat): (u: seq<string>)
    ensures |u| == 7
  {
    if i == 1 then ["", "gitea", "a", "a", "", "", "a"] else ["git", "", "a", "a", "a", "login", "a"]
  }

  function TokenForm(u: seq<string>): Form
    requires |u| == 7
  {
    Form(TokenSet, map[FTarget := u[0], FService := u[1], FServer := u[2], FUsername := u[3], FScope := u[4], FDockerMode := u[5],
                       FSecretRef := u[6]])
  }

  function TokenReadsOf(u: seq<string>): seq<Option<Value>>
    requires |u| == 7
  {
    TokenReads(Willing(), u[0], u[1], u[2], u[3], u[4], u[5], u[6])
  }

  predicate TokenSample(u: seq<string>) {
    && |u| == 7 && u[0] in {"", "git"} && u[1] in {"", "gitea"} && u[5] in {"", "login"}
    && u[2] in {"", "a"} && u[3] in {"", "a"} && u[4] in {"", "a"}
  }

  function TokenValues(u: seq<string>): seq<Option<Value>>
    requires |u| == 7
  {
    [Some(Str(u[2])), Some(Str(u[3])), Some(Str(u[4])), Passed(CToken, [u[0], u[1], u[2], u[3], u[4]]), Some(List([u[5]])),
     if u[6] == "" then None else Some(Str(u[6]))]
  }

  lemma TokenReadsEach(u: seq<string>)
    requires TokenSample(u)
    ensures TokenReadsOf(u) == TokenValues(u)
  {
    LetterA();
    assert Trim("git") == "git" && Trim("gitea") == "gitea" && Trim("login") == "login";
    assert PlainText("a") == Some("a") && PlainText("") == Some("");
    assert forall v: string :: v == "a" || v == "" ==> Trim(v) == v && Plain(v) == Some(Str(v));
    assert u[0] != "composer";
  }

  lemma TokenSamples(i: nat)
    requires i < 7
    ensures TokenSample(TokenTexts(i)) && TokenSample(TokenTexts(i)[i := ""]) && TokenTexts(i)[i] != ""
  {
  }

  /** With one of its fields empty one value differs. */
  lemma TokenValuesDiffer(i: nat) returns (at: nat)
    requires i < 7
    ensures var x, y := TokenValues(TokenTexts(i)), TokenValues(TokenTexts(i)[i := ""]);
            at < |x| == |y| && None !in x && x[at] != y[at]
  {
    at := [3, 3, 0, 1, 2, 4, 5][i];
    assert ["login"][0] != [""][0];
  }

  lemma TokenHas(u: seq<string>)
    requires |u| == 7
    ensures forall j :: 0 <= j < 7 ==> TOKEN_FIELDS[j] in TokenForm(u).fields && TokenForm(u).fields[TOKEN_FIELDS[j]] == u[j]
  {
  }

  lemma TokenApart(i: nat, j: nat)
    requires i < 7 && j < 7 && i != j
    ensures TOKEN_FIELDS[i] != TOKEN_FIELDS[j]
  {
  }

  lemma TokenGets(u: seq<string>, i: nat)
    requires |u| == 7 && i < 7
    ensures forall j :: 0 <= j < 7 ==>
              && TokenForm(u).Get(TOKEN_FIELDS[j]) == u[j]
              && Minus(TokenForm(u), TOKEN_FIELDS[i]).Get(TOKEN_FIELDS[j]) == u[i := ""][j]
  {
    TokenHas(u);
    forall j | 0 <= j < 7
      ensures TokenForm(u).Get(TOKEN_FIELDS[j]) == u[j]
      ensures Minus(TokenForm(u), TOKEN_FIELDS[i]).Get(TOKEN_FIELDS[j]) == u[i := ""][j]
    {
      if j != i { TokenApart(i, j); }
    }
  }

  lemma TokenJoint(f: Form, u: seq<string>)
    requires f.action == TokenSet && |u| == |TOKEN_FIELDS| && forall j :: 0 <= j < |u| ==> f.Get(TOKEN_FIELDS[j]) == u[j]
    ensures JointReads(f, Willing()) == TokenReadsOf(u)
  {
    assert TOKEN_FIELDS[0] == FTarget && TOKEN_FIELDS[1] == FService && TOKEN_FIELDS[2] == FServer && TOKEN_FIELDS[3] == FUsername;
  }

  lemma TokenSides(i: nat) returns (x: seq<Option<Value>>, y: seq<Option<Value>>)
    requires i < 7
    ensures x == TokenValues(TokenTexts(i)) == JointReads(TokenForm(TokenTexts(i)), Willing())
    ensures y == TokenValues(TokenTexts(i)[i := ""]) == JointReads(Minus(TokenForm(TokenTexts(i)), TOKEN_FIELDS[i]), Willing())
  {
    var u := TokenTexts(i);
    var v := u[i := ""];
    TokenGets(u, i);
    TokenSamples(i);
    TokenReadsEach(u);
    TokenReadsEach(v);
    TokenJoint(TokenForm(u), u);
    TokenJoint(Minus(TokenForm(u), TOKEN_FIELDS[i]), v);
    x, y := TokenValues(u), TokenValues(v);
  }

  lemma TokenSetNeeds(i: nat) returns (f: Form)
    requires i < |TOKEN_FIELDS|
    ensures f.action == TokenSet && Missed(f, TOKEN_FIELDS[i], Willing())
  {
    f := TokenForm(TokenTexts(i));
    var x, y := TokenSides(i);
    var at := TokenValuesDiffer(i);
    JointMissed(f, TOKEN_FIELDS[i], x, y, at);
  }

  lemma TickMissed(f: Form, g: Form, tools: seq<string>, t: string)
    requires t in tools && f.Get(FTool(t)) == "1" && g.Get(FTool(t)) == ""
    ensures |ToolReads(f, tools)| == |ToolReads(g, tools)| == 1 && None !in ToolReads(f, tools)
    ensures ToolReads(f, tools)[0] != ToolReads(g, tools)[0]
  {
    var i :| 0 <= i < |tools| && tools[i] == t;
    assert Ticks(f, tools)[i] && !Ticks(g, tools)[i];
  }

  lemma ToolNeeds(t: string) returns (f: Form)
    requires t in TOOLS
    ensures f.action == TokenInit && Missed(f, FTool(t), Willing())
  {
    f := Form(TokenInit, map[FTool(t) := "1"]);
    var g := Minus(f, FTool(t));
    TickMissed(f, g, TOOLS, t);
    JointMissed(f, FTool(t), ToolReads(f, TOOLS), ToolReads(g, TOOLS), 0);
  }

  lemma SaveNeeds(k: Field) returns (f: Form)
    requires k == FName || k == FSelection
    ensures f.action == ExportSelectionSave && Missed(f, k, Willing())
  {
    f := Form(ExportSelectionSave, map[FName := "a", FSelection := SELECTION]);
    LetterA();
    var g := Minus(f, k);
    var x, y := JointReads(f, Willing()), JointReads(g, Willing());
    assert x == [Some(List(["a", SELECTION]))];
    assert y == [Passed(CSelection, [if k == FName then "" else "a", if k == FSelection then "" else SELECTION])];
    assert SELECTION != "";
    JointMissed(f, k, x, y, 0);
  }

  lemma CodeReads()
    ensures ProfileCodeOf(Willing(), "", "a", "a").Some?
    ensures ProfileCodeOf(Willing(), "", "", "a").None? && ProfileCodeOf(Willing(), "", "a", "").None?
  {
    LetterA();
    NameNotices();
    assert NamingScope(Willing(), "") == Some(Str("")) && Name("a") == Some(Str("a")) && Name("").None?;
    assert PlainText("a") == Some("a") && PlainText("") == Some("") && AllAlnum("a");
  }

  lemma CodeNeeds(k: Field) returns (f: Form)
    requires k == FName || k == FCode
    ensures f.action == ProfileCode && Missed(f, k, Willing())
  {
    f := Form(ProfileCode, map[FName := "a", FCode := "a"]);
    CodeReads();
  }

  /** The rules "a" gets: each value of the form, and nothing where there is none. */
  lemma RuleReads()
    ensures Differs("a", "", {}) == Some(Maybe(Some("a"))) && Differs("", "", {}) == Some(Maybe(None))
    ensures Differs("off", "", {"off", "warn", "error"}) == Some(Maybe(Some("off")))
    ensures Differs("", "", {"off", "warn", "error"}) == Some(Maybe(None))
    ensures Differs("none", "", {"none", "profile"}) == Some(Maybe(Some("none")))
    ensures Differs("", "", {"none", "profile"}) == Some(Maybe(None))
  {
    LetterA();
    assert Trim("off") == "off" && Trim("none") == "none";
    assert PlainText("a") == Some("a") && PlainText("") == Some("") && PlainText("off") == Some("off") && PlainText("none") == Some("none");
  }

  lemma ListReads()
    ensures DiffersList("a", []) == Some(MaybeList(Some(["a"]))) && DiffersList("", []) == Some(MaybeList(None))
  {
    LetterA();
    SplitNoSep("a", ',');
    SplitNoSep("", ',');
    assert PlainText("a") == Some("a") && PlainText("") == Some("");
    assert NotEmpty([""]) == [] && NotEmpty(["a"]) == ["a"];
  }

  lemma StartReads()
    ensures DiffersStart("1", 0) == Some(MaybeNum(Some(1))) && DiffersStart("", 0) == Some(MaybeNum(None))
    ensures NamingScope(Willing(), "a") == Some(Str("a")) && NamingScope(Willing(), "") == Some(Str(""))
  {
    LetterA();
    assert Trim("1") == "1" && Name("a") == Some(Str("a"));
  }

  /** What a rules form is read as, when the rules there are, are none. */
  function RuleReadsOf(profile: string, alias: string, envs: string, roles: string, enforce: string, fallback: string, start: string)
    : seq<Option<Value>>
  {
    [NamingScope(Willing(), profile), Differs(alias, "", {}), DiffersList(envs, []), DiffersList(roles, []),
     Differs(enforce, "", {"off", "warn", "error"}), Differs(fallback, "", {"none", "profile"}), DiffersStart(start, 0)]
  }

  /** Rules that can be read, one of them set, are a change. */
  lemma RulesSet(profile: string, alias: string, envs: string, roles: string, enforce: string, fallback: string, start: string,
                 read: seq<Option<Value>>, i: nat)
    requires read == RuleReadsOf(profile, alias, envs, roles, enforce, fallback, start)
    requires None !in read && 1 <= i < 7 && !Unset(read[i].value)
    ensures NamingSetOf(Willing(), profile, alias, envs, roles, enforce, fallback, start) == Made(NamingSetKind(), read)
  {
    assert NamingRules(Willing(), Trim(profile)) == NO_NAMING;
    assert read[0] in read;
    assert Made(NamingSetKind(), read).value.values[i] == read[i].value;
  }

  const RULE_FIELDS: seq<Field> := [FProfile, FAlias, FEnvs, FRoles, FEnforce, FCodeFallback, FStart]
  const RULE_VALUES: seq<string> := ["a", "a", "a", "a", "off", "none", "1"]

  function RuleForm(): Form {
    Form(NamingSet, map[FProfile := "a", FAlias := "a", FEnvs := "a", FRoles := "a", FEnforce := "off", FCodeFallback := "none", FStart := "1"])
  }

  function Or(v: string, sample: string, value: Value, none: Value): Value { if v == sample then value else none }

  /** A rules form's values, when each field is its sample or empty. */
  function RuleValues(u: seq<string>): seq<Option<Value>>
    requires |u| == 7
  {
    [Some(Str(u[0])), Some(Or(u[1], "a", Maybe(Some("a")), Maybe(None))),
     Some(Or(u[2], "a", MaybeList(Some(["a"])), MaybeList(None))), Some(Or(u[3], "a", MaybeList(Some(["a"])), MaybeList(None))),
     Some(Or(u[4], "off", Maybe(Some("off")), Maybe(None))), Some(Or(u[5], "none", Maybe(Some("none")), Maybe(None))),
     Some(Or(u[6], "1", MaybeNum(Some(1)), MaybeNum(None)))]
  }

  predicate SampleOrEmpty(u: seq<string>) { |u| == 7 && forall i :: 0 <= i < 7 ==> u[i] == RULE_VALUES[i] || u[i] == "" }

  lemma RuleReadsEach(u: seq<string>)
    requires SampleOrEmpty(u)
    ensures RuleReadsOf(u[0], u[1], u[2], u[3], u[4], u[5], u[6]) == RuleValues(u)
  {
    RuleReads();
    ListReads();
    StartReads();
  }

  lemma RuleValuesDiffer(u: seq<string>, i: nat)
    requires SampleOrEmpty(u) && i < 7 && u[i] == ""
    ensures RuleValues(u)[i] != RuleValues(RULE_VALUES)[i]
  {
  }

  lemma RuleHas()
    ensures forall j :: 0 <= j < |RULE_FIELDS| ==> RuleForm().Get(RULE_FIELDS[j]) == RULE_VALUES[j]
  {
  }

  lemma RuleGets(i: nat)
    requires i < |RULE_FIELDS|
    ensures forall j :: 0 <= j < |RULE_FIELDS| ==>
              && RuleForm().Get(RULE_FIELDS[j]) == RULE_VALUES[j]
              && Minus(RuleForm(), RULE_FIELDS[i]).Get(RULE_FIELDS[j]) == if j == i then "" else RULE_VALUES[j]
  {
    RuleHas();
    forall j | 0 <= j < |RULE_FIELDS| && j != i ensures RULE_FIELDS[j] != RULE_FIELDS[i] {}
  }

  lemma RuleBuild(f: Form, u: seq<string>)
    requires f.action == NamingSet && |u| == 7 && forall j :: 0 <= j < 7 ==> f.Get(RULE_FIELDS[j]) == u[j]
    ensures Build(f, Willing()) == NamingSetOf(Willing(), u[0], u[1], u[2], u[3], u[4], u[5], u[6])
  {
    assert RULE_FIELDS[0] == FProfile && RULE_FIELDS[1] == FAlias && RULE_FIELDS[2] == FEnvs && RULE_FIELDS[3] == FRoles;
  }

  lemma RuleValuesSet(u: seq<string>, i: nat)
    requires SampleOrEmpty(u) && 1 <= i < 7 && u[i] != ""
    ensures None !in RuleValues(u) && !Unset(RuleValues(u)[i].value)
  {
  }

  /** A rules form that sets a rule is built. */
  lemma RuleMade(f: Form, u: seq<string>, i: nat) returns (read: seq<Option<Value>>)
    requires f.action == NamingSet && SampleOrEmpty(u) && forall j :: 0 <= j < 7 ==> f.Get(RULE_FIELDS[j]) == u[j]
    requires 1 <= i < 7 && u[i] != ""
    ensures read == RuleValues(u) && None !in read && Build(f, Willing()) == Made(NamingSetKind(), read)
  {
    read := RuleValues(u);
    RuleBuild(f, u);
    RuleReadsEach(u);
    RuleValuesSet(u, i);
    RulesSet(u[0], u[1], u[2], u[3], u[4], u[5], u[6], read, i);
  }

  lemma RuleTexts(i: nat) returns (u: seq<string>, at: nat)
    requires i < |RULE_FIELDS|
    ensures SampleOrEmpty(u) && u[i] == "" && 1 <= at < 7 && u[at] != ""
    ensures forall j :: 0 <= j < 7 ==> Minus(RuleForm(), RULE_FIELDS[i]).Get(RULE_FIELDS[j]) == u[j]
  {
    u := RULE_VALUES[i := ""];
    at := if i == 1 then 2 else 1;
    RuleGets(i);
    assert RULE_VALUES[1] == "a" == RULE_VALUES[2];
  }

  lemma RuleFull() returns (x: seq<Option<Value>>)
    ensures x == RuleValues(RULE_VALUES) && None !in x && Build(RuleForm(), Willing()) == Made(NamingSetKind(), x)
  {
    RuleGets(0);
    assert RULE_VALUES[1] == "a";
    x := RuleMade(RuleForm(), RULE_VALUES, 1);
  }

  lemma RuleNeeds(i: nat) returns (f: Form)
    requires i < |RULE_FIELDS|
    ensures f.action == NamingSet && Missed(f, RULE_FIELDS[i], Willing())
  {
    f := RuleForm();
    var u, at := RuleTexts(i);
    var x := RuleFull();
    var y := RuleMade(Minus(f, RULE_FIELDS[i]), u, at);
    RuleValuesDiffer(u, i);
    MissedOf(f, RULE_FIELDS[i], NamingSetKind(), x, y, i);
  }

  lemma TokenSetField(k: Field) returns (i: nat)
    requires k in {FTarget, FService, FServer, FUsername, FScope, FDockerMode, FSecretRef}
    ensures i < |TOKEN_FIELDS| && TOKEN_FIELDS[i] == k
  {
    i := if k == FTarget then 0 else if k == FService then 1 else if k == FServer then 2 else if k == FUsername then 3
         else if k == FScope then 4 else if k == FDockerMode then 5 else 6;
  }

  lemma RuleField(k: Field) returns (i: nat)
    requires k in {FProfile, FAlias, FEnvs, FRoles, FEnforce, FCodeFallback, FStart}
    ensures i < |RULE_FIELDS| && RULE_FIELDS[i] == k
  {
    i := if k == FProfile then 0 else if k == FAlias then 1 else if k == FEnvs then 2 else if k == FRoles then 3
         else if k == FEnforce then 4 else if k == FCodeFallback then 5 else 6;
  }

  lemma ToolField(k: Field) returns (t: string)
    requires k in Listed(TokenInit)
    ensures t in TOOLS && k == FTool(t)
  {
    t := k.name;
  }

  lemma FieldsListed(k: Field)
    ensures k in Listed(TokenSet) ==> k in {FTarget, FService, FServer, FUsername, FScope, FDockerMode, FSecretRef}
    ensures k in Listed(NamingSet) ==> k in {FProfile, FAlias, FEnvs, FRoles, FEnforce, FCodeFallback, FStart}
  {
  }

  lemma SpecialNeeds(a: Action, k: Field) returns (f: Form)
    requires k in Listed(a) && !Simple(a)
    ensures f.action == a && Missed(f, k, Willing())
  {
    FieldsListed(k);
    if a.TokenSet? {
      var i := TokenSetField(k);
      f := TokenSetNeeds(i);
    } else if a.NamingSet? {
      var i := RuleField(k);
      f := RuleNeeds(i);
    } else if a.TokenInit? {
      var t := ToolField(k);
      f := ToolNeeds(t);
    } else {
      f := FewNeeds(a, k);
    }
  }

  lemma FewNeeds(a: Action, k: Field) returns (f: Form)
    requires k in Listed(a) && (a.KeyRegenPub? || a.ExportSelectionSave? || a.ProfileCode?)
    ensures f.action == a && Missed(f, k, Willing())
  {
    match a
    case KeyRegenPub => f := SelectionNeeds(k, if k == FKey then "a/a" else if k == FProfile then "a" else "1");
    case ExportSelectionSave => f := SaveNeeds(k);
    case ProfileCode => f := CodeNeeds(k);
  }

  /** Each listed field is needed: without it some form that builds a change would build
      another, or none. */
  lemma ListedNeeded(a: Action, k: Field) returns (f: Form, h: Home)
    requires k in Listed(a)
    ensures f.action == a && Build(f, h).Some? && Build(Minus(f, k), h) != Build(f, h)
  {
    h := Willing();
    if Simple(a) {
      ListedRead(a);
      FieldsAre(Entries(a));
      var i :| 0 <= i < |Entries(a)| && Entries(a)[i].field == k;
      f := Form(a, Filled(Entries(a)));
      FilledBuilds(a, i);
    } else {
      f := SpecialNeeds(a, k);
    }
  }

  // Jobs.

  datatype JobKind = Deploy | Rotate | Rollback | Revoke | RotateKeys | BundleRestore | KnownhostsInit | KnownhostsPin

  datatype JobField = JKey | JTarget | JAllow | JReason | JProfile | JAll | JBundle | JForce | JHost

  function JobListed(k: JobKind): set<JobField> {
    match k
    case Deploy => {JKey, JTarget}
    case Rotate => {JKey, JAllow}
    case Rollback => {JKey}
    case Revoke => {JKey, JReason}
    case RotateKeys => {JProfile, JAll, JAllow}
    case BundleRestore => {JBundle}
    case KnownhostsInit => {JProfile, JAll, JForce}
    case KnownhostsPin => {JHost}
  }

  datatype JobForm = JobForm(kind: JobKind, fields: map<JobField, string>) {
    function Get(k: JobField): string { if k in fields then fields[k] else "" }
  }

  function CarriedJob(f: JobForm): JobForm {
    JobForm(f.kind, map k | k in f.fields && k in JobListed(f.kind) :: f.fields[k])
  }

  /** Every profile's, or one profile's; the profile field counts only without all. */
  function AllOrOne(all: string, profile: string): Option<Value> {
    if all == "1" then Some(List([])) else match Name(profile) case None => None case Some(p) => Some(List([p.s]))
  }

  /** The keys a selection rotates, which must be some; the home says which. */
  function Selected(h: Home, sel: Option<Value>): Option<Value> {
    match sel case Some(List(l)) => h.check(CSelected, l) case _ => None
  }

  function OneOfProfiles(h: Home, all: string, profile: string): Option<Value> {
    match AllOrOne(all, profile)
    case Some(List(l)) => if l == [] || l[0] in h.profiles then Some(List(l)) else None
    case _ => None
  }

  function JobWhat(k: JobKind): string {
    match k
    case Deploy => "deploy"
    case Rotate => "rotate"
    case Rollback => "rollback"
    case Revoke => "key revoke"
    case RotateKeys => "rotate keys"
    case BundleRestore => "restore"
    case KnownhostsInit => "knownhosts init"
    case KnownhostsPin => "knownhosts pin"
  }

  function JobReads(f: JobForm, h: Home): seq<Option<Value>> {
    match f.kind
    case Deploy => [KeyRef(f.Get(JKey)), OptionalName(f.Get(JTarget))]
    case Rotate => [KeyRef(f.Get(JKey)), Checked(f.Get(JAllow))]
    case Rollback => [KeyRef(f.Get(JKey))]
    case Revoke => [KeyRef(f.Get(JKey)), Plain(f.Get(JReason))]
    case RotateKeys =>
      var sel := AllOrOne(f.Get(JAll), f.Get(JProfile));
      [sel, Checked(f.Get(JAllow)), Selected(h, sel)]
    case BundleRestore => [h.check(CBundle, [Trim(f.Get(JBundle))])]
    case KnownhostsInit => [OneOfProfiles(h, f.Get(JAll), f.Get(JProfile)), Checked(f.Get(JForce))]
    case KnownhostsPin => [Name(f.Get(JHost)), h.check(CHost, [Trim(f.Get(JHost))])]
  }

  /** The job a form asks for. `sandboxed` refuses what reaches real servers. */
  function BuildJob(f: JobForm, h: Home, sandboxed: bool): Option<Change<string>> {
    if sandboxed && !f.kind.BundleRestore? && !f.kind.KnownhostsInit? && !f.kind.KnownhostsPin? then None
    else Made(JobWhat(f.kind), JobReads(f, h))
  }

  /** The job reviewed is the job started. */
  lemma StartedAsReviewed(f: JobForm, h: Home, sandboxed: bool)
    ensures BuildJob(CarriedJob(f), h, sandboxed) == BuildJob(f, h, sandboxed)
    ensures CarriedJob(f).fields.Keys == f.fields.Keys * JobListed(f.kind)
    ensures sandboxed && f.kind !in {BundleRestore, KnownhostsInit, KnownhostsPin} ==> BuildJob(f, h, sandboxed).None?
    ensures f.kind in {BundleRestore, KnownhostsInit, KnownhostsPin} ==> BuildJob(f, h, true) == BuildJob(f, h, false)
  {
    assert forall k :: k in JobListed(f.kind) ==> CarriedJob(f).Get(k) == f.Get(k);
  }

  /** A job's values are what its form's fields say. */
  lemma JobSays(f: JobForm, h: Home, sandboxed: bool)
    requires BuildJob(f, h, sandboxed).Some?
    ensures var values := BuildJob(f, h, sandboxed).value.values;
            match f.kind
            case Deploy => values == [KeyRef(f.Get(JKey)).value, Str(Trim(f.Get(JTarget)))]
            case Rotate => values == [KeyRef(f.Get(JKey)).value, Flag(f.Get(JAllow) == "1")]
            case Rollback => values == [KeyRef(f.Get(JKey)).value]
            case Revoke => values == [KeyRef(f.Get(JKey)).value, Str(Trim(f.Get(JReason)))]
            case RotateKeys =>
              |values| == 3 && values[0] == List(if f.Get(JAll) == "1" then [] else [Trim(f.Get(JProfile))]) && values[1] == Flag(f.Get(JAllow) == "1")
            case BundleRestore => values == [h.check(CBundle, [Trim(f.Get(JBundle))]).value]
            case KnownhostsInit => values == [List(if f.Get(JAll) == "1" then [] else [Trim(f.Get(JProfile))]), Flag(f.Get(JForce) == "1")]
            case KnownhostsPin => |values| == 2 && values[0] == Str(Trim(f.Get(JHost)))
  {
    var read := JobReads(f, h);
    assert forall i :: 0 <= i < |read| ==> read[i] in read;
  }

  function JobWithout(f: JobForm, k: JobField): JobForm { JobForm(f.kind, map j | j in f.fields && j != k :: f.fields[j]) }

  /** A key and a name that can be read, which nothing at all cannot. */
  ghost predicate JobTexts(ref: string, name: string) {
    && KeyRef(ref).Some? && KeyRef("").None? && Name(name).Some? && Name("").None? && Trim(name) == name != "" && Trim("") == ""
    && OptionalName(name) == Some(Str(name)) == Plain(name) && OptionalName("") == Some(Str("")) == Plain("")
    && AllOrOne("1", "").Some? && AllOrOne("", name).Some? && AllOrOne("", "").None?
    && OneOfProfiles(Willing(), "1", "").Some? && OneOfProfiles(Willing(), "", name).Some? && OneOfProfiles(Willing(), "", "").None?
    && Selected(Willing(), AllOrOne("1", "")).Some? && Selected(Willing(), AllOrOne("", name)).Some?
  }

  lemma LetterSelects()
    ensures AllOrOne("1", "") == Some(List([])) && AllOrOne("", "a") == Some(List(["a"])) && AllOrOne("", "").None?
    ensures OneOfProfiles(Willing(), "1", "").Some? && OneOfProfiles(Willing(), "", "a").Some? && OneOfProfiles(Willing(), "", "").None?
  {
    LetterA();
    assert Name("a") == Some(Str("a")) && Name("").None?;
  }

  lemma LetterTexts()
    ensures JobTexts("a/a", "a")
  {
    LetterA();
    LetterSelects();
    RefNotices();
    assert PlainText("a") == Some("a") && PlainText("") == Some("") && Name("a") == Some(Str("a")) && Name("").None?;
    assert Selected(Willing(), AllOrOne("1", "")).Some? && Selected(Willing(), AllOrOne("", "a")).Some?;
  }

  /** The field among what its job needs beside it. */
  function JobSample(kind: JobKind, k: JobField, ref: string, name: string): map<JobField, string> {
    match kind
    case Deploy => map[JKey := ref, JTarget := name]
    case Rotate => map[JKey := ref, JAllow := "1"]
    case Rollback => map[JKey := ref]
    case Revoke => map[JKey := ref, JReason := name]
    case RotateKeys => if k == JProfile then map[JProfile := name] else map[JAll := "1", JAllow := "1"]
    case BundleRestore => map[JBundle := BUNDLE]
    case KnownhostsInit => if k == JProfile then map[JProfile := name] else map[JAll := "1", JForce := "1"]
    case KnownhostsPin => map[JHost := name]
  }

  /** Without the field one value of the job differs. */
  ghost predicate JobMissed(kind: JobKind, k: JobField, ref: string, name: string, i: nat) {
    var f := JobForm(kind, JobSample(kind, k, ref, name));
    var x, y := JobReads(f, Willing()), JobReads(JobWithout(f, k), Willing());
    i < |x| == |y| && None !in x && x[i] != y[i]
  }

  lemma DeployMissed(k: JobField, ref: string, name: string)
    requires k in {JKey, JTarget} && JobTexts(ref, name)
    ensures JobMissed(Deploy, k, ref, name, if k == JTarget then 1 else 0)
  {
  }

  lemma RotateMissed(k: JobField, ref: string, name: string)
    requires k in {JKey, JAllow} && JobTexts(ref, name)
    ensures JobMissed(Rotate, k, ref, name, if k == JAllow then 1 else 0)
  {
  }

  lemma RollbackMissed(k: JobField, ref: string, name: string)
    requires k in {JKey} && JobTexts(ref, name)
    ensures JobMissed(Rollback, k, ref, name, 0)
  {
  }

  lemma RevokeMissed(k: JobField, ref: string, name: string)
    requires k in {JKey, JReason} && JobTexts(ref, name)
    ensures JobMissed(Revoke, k, ref, name, if k == JReason then 1 else 0)
  {
  }

  lemma RotateKeysMissed(k: JobField, ref: string, name: string)
    requires k in {JProfile, JAll, JAllow} && JobTexts(ref, name)
    ensures JobMissed(RotateKeys, k, ref, name, if k == JAllow then 1 else 0)
  {
  }

  lemma BundleRestoreMissed(k: JobField, ref: string, name: string)
    requires k in {JBundle} && JobTexts(ref, name)
    ensures JobMissed(BundleRestore, k, ref, name, 0)
  {
    assert [name][0] != [""][0];
  }

  lemma KnownhostsInitMissed(k: JobField, ref: string, name: string)
    requires k in {JProfile, JAll, JForce} && JobTexts(ref, name)
    ensures JobMissed(KnownhostsInit, k, ref, name, if k == JForce then 1 else 0)
  {
  }

  lemma KnownhostsPinMissed(k: JobField, ref: string, name: string)
    requires k in {JHost} && JobTexts(ref, name)
    ensures JobMissed(KnownhostsPin, k, ref, name, 0)
  {
  }

  lemma JobReadsDiffer(kind: JobKind, k: JobField, ref: string, name: string) returns (i: nat)
    requires k in JobListed(kind) && JobTexts(ref, name)
    ensures JobMissed(kind, k, ref, name, i)
  {
    i := if k in {JTarget, JAllow, JReason, JForce} then 1 else 0;
    match kind
    case Deploy => DeployMissed(k, ref, name);
    case Rotate => RotateMissed(k, ref, name);
    case Rollback => RollbackMissed(k, ref, name);
    case Revoke => RevokeMissed(k, ref, name);
    case RotateKeys => RotateKeysMissed(k, ref, name);
    case BundleRestore => BundleRestoreMissed(k, ref, name);
    case KnownhostsInit => KnownhostsInitMissed(k, ref, name);
    case KnownhostsPin => KnownhostsPinMissed(k, ref, name);
  }

  /** And each field a job's form is listed with is needed. */
  lemma JobListedNeeded(kind: JobKind, k: JobField) returns (f: JobForm, h: Home)
    requires k in JobListed(kind)
    ensures f.kind == kind && BuildJob(f, h, false).Some? && BuildJob(JobWithout(f, k), h, false) != BuildJob(f, h, false)
  {
    f, h := JobForm(kind, JobSample(kind, k, "a/a", "a")), Willing();
    LetterTexts();
    var i := JobReadsDiffer(kind, k, "a/a", "a");
    MadeDiffers(JobWhat(kind), JobReads(f, h), JobReads(JobWithout(f, k), h), i);
  }
}
