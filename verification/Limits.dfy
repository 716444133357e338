/**
 * The two writers of account limits (`client.ts`): the body of a user package and the body of the change of one
 * account. DirectAdmin reads a limit as unlimited whenever the parameter `u<field>` is present, whatever its value.
 */
module Limits {
  import opened Options
  import opened Text

  datatype Limit = Unlimited | Amount(value: real)

  datatype UserLimits = UserLimits(
    diskQuotaMb: Limit, bandwidthMb: Limit, domains: Limit, subdomains: Limit, emailAccounts: Limit,
    emailForwarders: Limit, mailingLists: Limit, autoresponders: Limit, databases: Limit, domainPointers: Limit,
    ftpAccounts: Limit)

  datatype Field =
    | Quota | Bandwidth | Vdomains | Nsubdomains | Nemails | Nemailf | Nemailml | Nemailr | Mysql | Domainptr | Ftp

  function Name(f: Field): string {
    match f
    case Quota => "quota"
    case Bandwidth => "bandwidth"
    case Vdomains => "vdomains"
    case Nsubdomains => "nsubdomains"
    case Nemails => "nemails"
    case Nemailf => "nemailf"
    case Nemailml => "nemailml"
    case Nemailr => "nemailr"
    case Mysql => "mysql"
    case Domainptr => "domainptr"
    case Ftp => "ftp"
  }

  function LimitOf(l: UserLimits, f: Field): Limit {
    match f
    case Quota => l.diskQuotaMb
    case Bandwidth => l.bandwidthMb
    case Vdomains => l.domains
    case Nsubdomains => l.subdomains
    case Nemails => l.emailAccounts
    case Nemailf => l.emailForwarders
    case Nemailml => l.mailingLists
    case Nemailr => l.autoresponders
    case Mysql => l.databases
    case Domainptr => l.domainPointers
    case Ftp => l.ftpAccounts
  }

  /** The parameters: a limit, the flag that lifts it, or any other by its name. */
  datatype Key = Number(f: Field) | Flag(f: Field) | Named(name: string)

  function KeyText(k: Key): string {
    match k
    case Number(f) => Name(f)
    case Flag(f) => "u" + Name(f)
    case Named(name) => name
  }

  /** The two parameters of a field: the limit itself and the flag that lifts it. */
  datatype Entry = Entry(limit: Option<Content>, flag: Option<string>)

  /** The parameters of a body; `KeyTextInjective` shows that no two of them share a name. */
  datatype Params = Params(limits: map<Field, Entry>, named: map<string, string>)

  /** The order in which the package writer and the account writer go through the fields. */
  const PACKAGE_ORDER :=
    [Quota, Bandwidth, Vdomains, Nsubdomains, Nemails, Nemailf, Nemailml, Nemailr, Mysql, Domainptr, Ftp]
  const ACCOUNT_ORDER :=
    [Bandwidth, Quota, Vdomains, Nsubdomains, Nemails, Nemailf, Nemailml, Nemailr, Mysql, Domainptr, Ftp]

  lemma OrdersAreComplete()
    ensures forall f: Field :: f in PACKAGE_ORDER[..|PACKAGE_ORDER|] && f in ACCOUNT_ORDER[..|ACCOUNT_ORDER|]
    ensures forall i, j | 0 <= i < j < |ACCOUNT_ORDER| :: ACCOUNT_ORDER[i] != ACCOUNT_ORDER[j]
  {
    assert PACKAGE_ORDER[..|PACKAGE_ORDER|] == PACKAGE_ORDER && ACCOUNT_ORDER[..|ACCOUNT_ORDER|] == ACCOUNT_ORDER;
    forall f: Field
      ensures f in PACKAGE_ORDER && f in ACCOUNT_ORDER
    {
      match f
      case Quota => assert PACKAGE_ORDER[0] == f && ACCOUNT_ORDER[1] == f;
      case Bandwidth => assert PACKAGE_ORDER[1] == f && ACCOUNT_ORDER[0] == f;
      case Vdomains => assert PACKAGE_ORDER[2] == f && ACCOUNT_ORDER[2] == f;
      case Nsubdomains => assert PACKAGE_ORDER[3] == f && ACCOUNT_ORDER[3] == f;
      case Nemails => assert PACKAGE_ORDER[4] == f && ACCOUNT_ORDER[4] == f;
      case Nemailf => assert PACKAGE_ORDER[5] == f && ACCOUNT_ORDER[5] == f;
      case Nemailml => assert PACKAGE_ORDER[6] == f && ACCOUNT_ORDER[6] == f;
      case Nemailr => assert PACKAGE_ORDER[7] == f && ACCOUNT_ORDER[7] == f;
      case Mysql => assert PACKAGE_ORDER[8] == f && ACCOUNT_ORDER[8] == f;
      case Domainptr => assert PACKAGE_ORDER[9] == f && ACCOUNT_ORDER[9] == f;
      case Ftp => assert PACKAGE_ORDER[10] == f && ACCOUNT_ORDER[10] == f;
    }
  }

  /** The text of a limit: a count in decimal digits, or a word. */
  datatype Content = Count(n: nat) | Word(w: string)

  function Written(c: Content): string {
    match c
    case Count(n) => Decimal(n)
    case Word(w) => w
  }

  // ------------------------------------------------------- what DirectAdmin reads

  datatype Reading = Missing | NoLimit | Exactly(n: nat)

  function EntryOf(p: Params, f: Field): Entry {
    if f in p.limits then p.limits[f] else Entry(None, None)
  }

  function Read(e: Entry): Reading {
    if e.flag.Some? then NoLimit
    else if e.limit.Some? && e.limit.value.Count? then Exactly(e.limit.value.n)
    else Missing
  }

  /** What is written as a count is what its digits say. */
  lemma WrittenCount(n: nat)
    ensures AllDigits(Written(Count(n))) && Value(Written(Count(n))) == n
  {
    ValueOfDecimal(n);
  }

  function AtLeast(least: nat, x: real): nat {
    if x.Floor < least then least else x.Floor
  }

  function Wanted(limit: Limit, least: nat): Reading {
    if limit.Unlimited? then NoLimit else Exactly(AtLeast(least, limit.value))
  }

  function Least(f: Field): nat {
    if f.Quota? || f.Bandwidth? then 1 else 0
  }

  /** The limit meant: whole units, and at least 1 for the disk quota and the transfer. */
  function Meant(l: UserLimits, f: Field): Reading {
    Wanted(LimitOf(l, f), Least(f))
  }

  /** Every limit is read as it was meant. */
  ghost predicate Carries(p: Params, l: UserLimits) {
    forall f: Field :: Read(EntryOf(p, f)) == Meant(l, f)
  }

  // -------------------------------------------------------------- the parameter names

  /** A name no limit is read from. */
  ghost predicate Other(name: string) {
    forall f: Field :: name != KeyText(Number(f)) && name != KeyText(Flag(f))
  }

  ghost predicate OwnName(k: Key) {
    k.Named? ==> Other(k.name)
  }

  lemma NamesApart(f: Field, g: Field)
    ensures Name(f) == Name(g) ==> f == g
    ensures KeyText(Number(f)) != KeyText(Flag(g))
  {
    assert KeyText(Number(f))[0] != 'u';
  }

  /** No two parameters share a name, so one never overwrites or lifts another. */
  lemma KeyTextInjective(j: Key, k: Key)
    requires OwnName(j) && OwnName(k) && KeyText(j) == KeyText(k)
    ensures j == k
  {
    if !j.Named? && !k.Named? {
      NamesApart(j.f, k.f);
      NamesApart(k.f, j.f);
      if j.Flag? && k.Flag? {
        assert KeyText(j)[1..] == Name(j.f) && KeyText(k)[1..] == Name(k.f);
      }
    }
  }

  lemma OtherByInitial(name: string)
    requires |name| > 0 && name[0] !in "qbvnmdfu"
    ensures Other(name)
  {
  }

  lemma OtherInFull(name: string)
    requires name in {"dnscontrol", "mem", "nproc", "user"}
    ensures Other(name)
  {
    forall f: Field
      ensures name != KeyText(Number(f)) && name != KeyText(Flag(f))
    {
      assert KeyText(Flag(f))[0] == 'u' && KeyText(Flag(f))[1] != 's';
      assert Name(f)[1] !in "sep" || Name(f)[1..2] == "s" || f.Nemails? || f.Nemailf? || f.Nemailml? || f.Nemailr?;
    }
  }

  // ------------------------------------------------------------ the package writer

  /** `setLimit` */
  method SetLimit(p: Params, f: Field, value: Limit, least: nat) returns (q: Params)
    ensures f in q.limits && q == p.(limits := p.limits[f := q.limits[f]])
    ensures Read(q.limits[f]) == Wanted(value, least)
  {
    if value.Unlimited? {
      q := p.(limits := p.limits[f := EntryOf(p, f).(flag := Some("yes"))]);
      q := q.(limits := q.limits[f := q.limits[f].(limit := Some(Word("unlimited")))]);
    } else {
      var n := AtLeast(least, value.value);
      q := p.(limits := p.limits[f := EntryOf(p, f).(limit := Some(Count(n)))]);
      q := q.(limits := q.limits[f := q.limits[f].(flag := None)]);
    }
  }

  datatype Features = Features(
    cgi: Option<bool>, php: Option<bool>, ssl: Option<bool>, spam: Option<bool>, catchall: Option<bool>,
    cron: Option<bool>, dnscontrol: Option<bool>, ssh: Option<bool>, redis: Option<bool>, git: Option<bool>,
    wordpress: Option<bool>)

  datatype LveLimits = LveLimits(
    cpuPercent: Option<real>, memoryMb: Option<real>, ioKbps: Option<real>, iops: Option<real>,
    entryProcesses: Option<real>, nproc: Option<real>)

  datatype CgroupLimits = CgroupLimits(
    cpuQuotaPercent: Option<real>, memoryHighMb: Option<real>, memoryMaxMb: Option<real>,
    ioReadBandwidthKbps: Option<real>, ioWriteBandwidthKbps: Option<real>, ioReadIops: Option<real>,
    ioWriteIops: Option<real>, tasksMax: Option<real>)

  datatype PackageSpec = PackageSpec(
    name: string, limits: UserLimits, features: Features, lve: LveLimits, cgroup: CgroupLimits,
    language: string, skin: Option<string>)

  function OnOff(v: Option<bool>, dflt: bool): string {
    if (if v.Some? then v.value else dflt) then "ON" else "OFF"
  }

  function OnlyIf(name: string, v: Option<bool>): map<string, string> {
    if v.Some? then map[name := OnOff(v, false)] else map[]
  }

  function IfSet(name: string, v: Option<real>): map<string, string> {
    if v.Some? then map[name := NumberText(v.value.Floor)] else map[]
  }

  function CgroupText(v: Option<real>, suffix: string): string {
    if v.None? then "" else Decimal(AtLeast(0, v.value)) + suffix
  }

  function WebParams(f: Features): map<string, string> {
    map["cgi" := OnOff(f.cgi, true), "php" := OnOff(f.php, true),
        "ssl" := OnOff(f.ssl, true), "spam" := OnOff(f.spam, true)]
  }

  function SystemParams(f: Features): map<string, string> {
    map["catchall" := OnOff(f.catchall, true), "cron" := OnOff(f.cron, true),
        "ssh" := OnOff(f.ssh, false)]
  }

  function DnsParams(f: Features): map<string, string> {
    map["dnscontrol" := OnOff(f.dnscontrol, true)]
  }

  function NewParams(f: Features): map<string, string> {
    OnlyIf("redis", f.redis) + OnlyIf("git", f.git) + OnlyIf("wordpress", f.wordpress)
  }

  function LveParams(l: LveLimits): map<string, string> {
    IfSet("cpu", l.cpuPercent) + IfSet("mem", l.memoryMb) + IfSet("io", l.ioKbps)
  }

  function LveCounts(l: LveLimits): map<string, string> {
    IfSet("iops", l.iops) + IfSet("ep", l.entryProcesses) + IfSet("nproc", l.nproc)
  }

  function CgroupParams(c: CgroupLimits): map<string, string> {
    map["CPUQuota" := CgroupText(c.cpuQuotaPercent, "%"),
        "MemoryHigh" := CgroupText(c.memoryHighMb, "M"),
        "MemoryMax" := CgroupText(c.memoryMaxMb, "M"),
        "TasksMax" := CgroupText(c.tasksMax, "")]
  }

  function CgroupIoParams(c: CgroupLimits): map<string, string> {
    map["IOReadBandwidthMax" := CgroupText(c.ioReadBandwidthKbps, "K"),
        "IOWriteBandwidthMax" := CgroupText(c.ioWriteBandwidthKbps, "K"),
        "IOReadIOPSMax" := CgroupText(c.ioReadIops, ""),
        "IOWriteIOPSMax" := CgroupText(c.ioWriteIops, "")]
  }

  function StyleParams(spec: PackageSpec): map<string, string> {
    (if spec.language != "" then map["language" := spec.language] else map[])
    + map["skin" := if spec.skin.Some? then spec.skin.value else "evolution"]
  }

  /** Every parameter here bears a name of its own that no limit bears. */
  ghost predicate Apart(m: map<string, string>) {
    forall k | k in m :: Other(k)
  }

  lemma WebApart(f: Features)
    ensures Apart(WebParams(f))
  {
    OtherByInitial("cgi");
    OtherByInitial("php");
    OtherByInitial("ssl");
    OtherByInitial("spam");
  }

  lemma SystemApart(f: Features)
    ensures Apart(SystemParams(f)) && Apart(DnsParams(f))
  {
    OtherByInitial("catchall");
    OtherByInitial("cron");
    OtherByInitial("ssh");
    OtherInFull("dnscontrol");
  }

  lemma NewApart(f: Features)
    ensures Apart(NewParams(f))
  {
    OtherByInitial("redis");
    OtherByInitial("git");
    OtherByInitial("wordpress");
  }

  lemma LveApart(l: LveLimits)
    ensures Apart(LveParams(l))
  {
  }

  lemma LveCountsApart(l: LveLimits)
    ensures Apart(LveCounts(l))
  {
    OtherByInitial("iops");
    OtherByInitial("ep");
    OtherInFull("nproc");
  }

  lemma CgroupApart(c: CgroupLimits)
    ensures Apart(CgroupParams(c))
  {
    OtherByInitial("CPUQuota");
    OtherByInitial("MemoryHigh");
    OtherByInitial("MemoryMax");
    OtherByInitial("TasksMax");
  }

  lemma CgroupIoApart(c: CgroupLimits)
    ensures Apart(CgroupIoParams(c))
  {
  }

  lemma StyleApart(spec: PackageSpec)
    ensures Apart(StyleParams(spec))
  {
    OtherByInitial("language");
    OtherByInitial("skin");
  }

  // ------------------------------------------------------------- what is sent by name

  /** The text of a parameter. */
  function TextAt(p: Params, k: Key): Option<string> {
    match k
    case Number(f) => if EntryOf(p, f).limit.Some? then Some(Written(EntryOf(p, f).limit.value)) else None
    case Flag(f) => EntryOf(p, f).flag
    case Named(name) => if name in p.named then Some(p.named[name]) else None
  }

  /** The body has a parameter of that name with that text. */
  ghost predicate Sends(p: Params, name: string, text: string) {
    exists k: Key :: KeyText(k) == name && TextAt(p, k) == Some(text)
  }

  lemma SentUnder(p: Params, k: Key, text: string)
    requires Apart(p.named) && !k.Named?
    ensures Sends(p, KeyText(k), text) <==> TextAt(p, k) == Some(text)
  {
    if Sends(p, KeyText(k), text) {
      var j :| KeyText(j) == KeyText(k) && TextAt(p, j) == Some(text);
      KeyTextInjective(j, k);
    }
  }

  /**
   * By the names and texts that are sent, and the rule that `u<field>` lifts a limit: the flag is sent exactly for
   * a limit meant to be lifted, and for any other exactly its digits are sent, which read as the number meant.
   */
  lemma LimitsSent(p: Params, l: UserLimits, f: Field)
    requires Carries(p, l) && Apart(p.named)
    ensures LimitOf(l, f).Unlimited? <==> exists text :: Sends(p, "u" + Name(f), text)
    ensures LimitOf(l, f).Amount? ==>
              forall text :: Sends(p, Name(f), text) <==>
                AllDigits(text) && text == Decimal(Value(text)) && Value(text) == AtLeast(Least(f), LimitOf(l, f).value)
  {
    assert Read(EntryOf(p, f)) == Meant(l, f);
    assert KeyText(Flag(f)) == "u" + Name(f) && KeyText(Number(f)) == Name(f);
    if LimitOf(l, f).Unlimited? {
      SentUnder(p, Flag(f), EntryOf(p, f).flag.value);
    } else {
      var n := AtLeast(Least(f), LimitOf(l, f).value);
      WrittenCount(n);
      forall text
        ensures !Sends(p, "u" + Name(f), text)
        ensures Sends(p, Name(f), text) <==> text == Decimal(n)
      {
        SentUnder(p, Flag(f), text);
        SentUnder(p, Number(f), text);
      }
    }
  }

  /** So two bodies for the same limits, however written, lift the same limits and send the same numbers. */
  lemma WritersAgree(p: Params, q: Params, l: UserLimits, f: Field)
    requires Carries(p, l) && Apart(p.named) && Carries(q, l) && Apart(q.named)
    ensures (exists text :: Sends(p, "u" + Name(f), text)) <==> (exists text :: Sends(q, "u" + Name(f), text))
    ensures !(exists text :: Sends(p, "u" + Name(f), text)) ==>
              forall text :: Sends(p, Name(f), text) <==> Sends(q, Name(f), text)
  {
    LimitsSent(p, l, f);
    LimitsSent(q, l, f);
  }

  // -------------------------------------------------------- what is sent, in full

  /** The number of whole units of `x`, but `least` for less than that. */
  predicate Rounded(n: int, x: real, least: int) {
    if x < least as real then n == least else n as real <= x < (n + 1) as real
  }

  /** The body lifts the limit of that name, or sends the digits of its whole units. */
  ghost predicate FieldSent(p: Params, name: string, limit: Limit, least: int) {
    && (limit.Unlimited? <==> exists text :: Sends(p, "u" + name, text))
    && (limit.Amount? ==> forall text :: Sends(p, name, text) <==>
          AllDigits(text) && text == Decimal(Value(text)) && Rounded(Value(text), limit.value, least))
  }

  /** Which limit goes out under which name: the disk quota and the transfer as at least 1, all others as they are. */
  ghost predicate SentInFull(p: Params, l: UserLimits) {
    && FieldSent(p, "quota", l.diskQuotaMb, 1) && FieldSent(p, "bandwidth", l.bandwidthMb, 1)
    && FieldSent(p, "vdomains", l.domains, 0) && FieldSent(p, "nsubdomains", l.subdomains, 0)
    && FieldSent(p, "nemails", l.emailAccounts, 0) && FieldSent(p, "nemailf", l.emailForwarders, 0)
    && FieldSent(p, "nemailml", l.mailingLists, 0) && FieldSent(p, "nemailr", l.autoresponders, 0)
    && FieldSent(p, "mysql", l.databases, 0) && FieldSent(p, "domainptr", l.domainPointers, 0)
    && FieldSent(p, "ftp", l.ftpAccounts, 0)
  }

  lemma RoundedIs(n: int, x: real, least: nat)
    ensures Rounded(n, x, least) <==> n == AtLeast(least, x)
  {
  }

  lemma FieldIsSent(p: Params, l: UserLimits, f: Field)
    requires Carries(p, l) && Apart(p.named)
    ensures FieldSent(p, Name(f), LimitOf(l, f), Least(f))
  {
    LimitsSent(p, l, f);
    if LimitOf(l, f).Amount? {
      forall text
        ensures Sends(p, Name(f), text) <==>
                AllDigits(text) && text == Decimal(Value(text)) && Rounded(Value(text), LimitOf(l, f).value, Least(f))
      {
        if AllDigits(text) {
          RoundedIs(Value(text), LimitOf(l, f).value, Least(f));
        }
      }
    }
  }

  lemma SentUnderName(p: Params, l: UserLimits, f: Field, name: string, limit: Limit, least: int)
    requires Carries(p, l) && Apart(p.named) && Name(f) == name && LimitOf(l, f) == limit && Least(f) == least
    ensures FieldSent(p, name, limit, least)
  {
    FieldIsSent(p, l, f);
  }

  lemma FirstFieldsSent(p: Params, l: UserLimits)
    requires Carries(p, l) && Apart(p.named)
    ensures FieldSent(p, "quota", l.diskQuotaMb, 1) && FieldSent(p, "bandwidth", l.bandwidthMb, 1)
    ensures FieldSent(p, "vdomains", l.domains, 0) && FieldSent(p, "nsubdomains", l.subdomains, 0)
  {
    SentUnderName(p, l, Quota, "quota", l.diskQuotaMb, 1);
    SentUnderName(p, l, Bandwidth, "bandwidth", l.bandwidthMb, 1);
    SentUnderName(p, l, Vdomains, "vdomains", l.domains, 0);
    SentUnderName(p, l, Nsubdomains, "nsubdomains", l.subdomains, 0);
  }

  lemma MailFieldsSent(p: Params, l: UserLimits)
    requires Carries(p, l) && Apart(p.named)
    ensures FieldSent(p, "nemails", l.emailAccounts, 0) && FieldSent(p, "nemailf", l.emailForwarders, 0)
    ensures FieldSent(p, "nemailml", l.mailingLists, 0) && FieldSent(p, "nemailr", l.autoresponders, 0)
  {
    SentUnderName(p, l, Nemails, "nemails", l.emailAccounts, 0);
    SentUnderName(p, l, Nemailf, "nemailf", l.emailForwarders, 0);
    SentUnderName(p, l, Nemailml, "nemailml", l.mailingLists, 0);
    SentUnderName(p, l, Nemailr, "nemailr", l.autoresponders, 0);
  }

  lemma LastFieldsSent(p: Params, l: UserLimits)
    requires Carries(p, l) && Apart(p.named)
    ensures FieldSent(p, "mysql", l.databases, 0) && FieldSent(p, "domainptr", l.domainPointers, 0)
    ensures FieldSent(p, "ftp", l.ftpAccounts, 0)
  {
    SentUnderName(p, l, Mysql, "mysql", l.databases, 0);
    SentUnderName(p, l, Domainptr, "domainptr", l.domainPointers, 0);
    SentUnderName(p, l, Ftp, "ftp", l.ftpAccounts, 0);
  }

  /** By the names sent and the fields of the record. */
  lemma CarriedIsSent(p: Params, l: UserLimits)
    requires Carries(p, l) && Apart(p.named)
    ensures SentInFull(p, l)
  {
    FirstFieldsSent(p, l);
    MailFieldsSent(p, l);
    LastFieldsSent(p, l);
  }

  /** Texts set one after another, a later one in place of an earlier one of its name. */
  function Merged(ms: seq<map<string, string>>): map<string, string> {
    if ms == [] then map[] else Merged(ms[..|ms| - 1]) + ms[|ms| - 1]
  }

  function ExtraLayers(spec: PackageSpec): seq<map<string, string>> {
    [WebParams(spec.features), SystemParams(spec.features), DnsParams(spec.features), NewParams(spec.features),
     LveParams(spec.lve), LveCounts(spec.lve), CgroupParams(spec.cgroup), CgroupIoParams(spec.cgroup),
     StyleParams(spec)]
  }

  /** Everything a package says besides its limits. */
  function Extras(spec: PackageSpec): map<string, string> {
    Merged(ExtraLayers(spec))
  }

  lemma {:induction false} MergedApart(ms: seq<map<string, string>>)
    requires forall i | 0 <= i < |ms| :: Apart(ms[i])
    ensures Apart(Merged(ms))
  {
    if ms == [] {
    } else {
      MergedApart(ms[..|ms| - 1]);
    }
  }

  lemma ExtrasApart(spec: PackageSpec)
    ensures Apart(Extras(spec))
  {
    WebApart(spec.features);
    SystemApart(spec.features);
    NewApart(spec.features);
    LveApart(spec.lve);
    LveCountsApart(spec.lve);
    CgroupApart(spec.cgroup);
    CgroupIoApart(spec.cgroup);
    StyleApart(spec);
    MergedApart(ExtraLayers(spec));
  }

  method PackageLimits(name: string, l: UserLimits) returns (params: Params)
    ensures Carries(params, l)
    ensures params.named == map["add" := "Save", "packagename" := name]
  {
    params := Params(map[], map["add" := "Save", "packagename" := name]);
    for i := 0 to |PACKAGE_ORDER|
      invariant params.named == map["add" := "Save", "packagename" := name]
      invariant forall f | f in PACKAGE_ORDER[..i] :: Read(EntryOf(params, f)) == Meant(l, f)
    {
      var f := PACKAGE_ORDER[i];
      params := SetLimit(params, f, LimitOf(l, f), Least(f));
    }
    OrdersAreComplete();
  }

  /** `buildPackageParams`: whatever else the package says, its limits are read as meant. */
  method BuildPackageParams(spec: PackageSpec) returns (params: Params)
    ensures Carries(params, spec.limits) && SentInFull(params, spec.limits)
    ensures params.named == map["add" := "Save", "packagename" := spec.name] + Extras(spec)
    ensures Apart(params.named)
  {
    params := PackageLimits(spec.name, spec.limits);
    OtherByInitial("add");
    OtherByInitial("packagename");
    ExtrasApart(spec);
    params := params.(named := params.named + Extras(spec));
    CarriedIsSent(params, spec.limits);
  }

  // ----------------------------------------------------------- the account writer

  /** The switches of an account that a change of its limits must send back. */
  const SWITCHES := [
    "aftp", "cgi", "php", "spam", "cron", "catchall", "ssl", "ssh", "sysinfo", "login_keys", "dnscontrol",
    "suspend_at_limit", "redis", "git", "wordpress"]

  lemma SwitchesApart(k: string)
    requires k in SWITCHES
    ensures Other(k) && k !in {"action", "user", "skin"}
  {
    if k == "dnscontrol" {
      OtherInFull(k);
    } else {
      OtherByInitial(k);
    }
  }

  lemma HeaderApart()
    ensures Other("action") && Other("user") && Other("skin")
  {
    OtherByInitial("action");
    OtherInFull("user");
    OtherByInitial("skin");
  }

  /** The answer to a change: nothing is sent, or this body. */
  datatype Change = Refused | Send(body: Params)

  predicate Readable(current: map<string, string>, k: string) {
    k in current && (current[k] == "ON" || current[k] == "OFF")
  }

  predicate ReadFailed(current: map<string, string>) {
    "error" in current && current["error"] != "" && current["error"] != "0"
  }

  function ReadableAmong(names: seq<string>, current: map<string, string>): (r: seq<string>)
    ensures forall k :: k in r <==> k in names && Readable(current, k)
  {
    if names == [] then []
    else
      var rest := ReadableAmong(names[1..], current);
      if Readable(current, names[0]) then [names[0]] + rest else rest
  }

  /** `pole`: it only ever adds a parameter. */
  method SetField(p: Params, f: Field, value: Limit, least: nat) returns (q: Params)
    ensures f in q.limits && q == p.(limits := p.limits[f := q.limits[f]])
    ensures EntryOf(p, f) == Entry(None, None) ==> Read(q.limits[f]) == Wanted(value, least)
  {
    if value.Unlimited? {
      q := p.(limits := p.limits[f := EntryOf(p, f).(flag := Some("ON"))]);
    } else {
      q := p.(limits := p.limits[f := EntryOf(p, f).(limit := Some(Count(AtLeast(least, value.value))))]);
    }
  }

  method AccountLimits(username: string, l: UserLimits) returns (params: Params)
    ensures Carries(params, l)
    ensures params.named == map["action" := "customize", "user" := username]
  {
    params := Params(map[], map["action" := "customize", "user" := username]);
    OrdersAreComplete();
    for i := 0 to |ACCOUNT_ORDER|
      invariant params.named == map["action" := "customize", "user" := username]
      invariant forall f | f in params.limits :: f in ACCOUNT_ORDER[..i]
      invariant forall f | f in ACCOUNT_ORDER[..i] :: Read(EntryOf(params, f)) == Meant(l, f)
    {
      var f := ACCOUNT_ORDER[i];
      assert f !in ACCOUNT_ORDER[..i];
      params := SetField(params, f, LimitOf(l, f), Least(f));
    }
  }

  /** Of the switches named, exactly the readable ones are sent, each with the value that was read. */
  ghost predicate SentBack(names: seq<string>, sent: map<string, string>, current: map<string, string>) {
    forall k | k in names :: (k in sent <==> Readable(current, k)) && (Readable(current, k) ==> sent[k] == current[k])
  }

  ghost predicate SameOutside(names: seq<string>, m: map<string, string>, n: map<string, string>) {
    forall k | k !in names :: (k in m <==> k in n) && (k in n ==> m[k] == n[k])
  }

  method SendBack(names: seq<string>, current: map<string, string>, header: map<string, string>)
    returns (sent: map<string, string>)
    requires forall k | k in names :: k !in header
    ensures SentBack(names, sent, current) && SameOutside(names, sent, header)
  {
    sent := header;
    var switches := ReadableAmong(names, current);
    for i := 0 to |switches|
      invariant SameOutside(names, sent, header)
      invariant forall k | k in names :: k in sent <==> k in switches[..i]
      invariant forall k | k in names && k in sent :: Readable(current, k) && sent[k] == current[k]
    {
      var k := switches[i];
      assert k in switches;
      sent := sent[k := current[k]];
    }
    assert switches[..|switches|] == switches;
  }

  /** A switch goes back on or off as it was read, and not at all if it could not be read. */
  predicate SwitchKept(sent: map<string, string>, current: map<string, string>, k: string) {
    if k in current && (current[k] == "ON" || current[k] == "OFF") then k in sent && sent[k] == current[k]
    else k !in sent
  }

  lemma SwitchIsKept(sent: map<string, string>, current: map<string, string>, i: nat)
    requires SentBack(SWITCHES, sent, current) && i < |SWITCHES|
    ensures SwitchKept(sent, current, SWITCHES[i])
  {
    assert SWITCHES[i] in SWITCHES;
  }

  /** By the names of the switches. */
  lemma SwitchesInFull(sent: map<string, string>, current: map<string, string>)
    requires SentBack(SWITCHES, sent, current)
    ensures SwitchKept(sent, current, "aftp") && SwitchKept(sent, current, "cgi") && SwitchKept(sent, current, "php")
    ensures SwitchKept(sent, current, "spam") && SwitchKept(sent, current, "cron")
    ensures SwitchKept(sent, current, "catchall") && SwitchKept(sent, current, "ssl")
    ensures SwitchKept(sent, current, "ssh") && SwitchKept(sent, current, "sysinfo")
    ensures SwitchKept(sent, current, "login_keys") && SwitchKept(sent, current, "dnscontrol")
    ensures SwitchKept(sent, current, "suspend_at_limit") && SwitchKept(sent, current, "redis")
    ensures SwitchKept(sent, current, "git") && SwitchKept(sent, current, "wordpress")
  {
    forall i: nat | i < |SWITCHES|
      ensures SwitchKept(sent, current, SWITCHES[i])
    {
      SwitchIsKept(sent, current, i);
    }
    assert SWITCHES[0] == "aftp" && SWITCHES[1] == "cgi" && SWITCHES[2] == "php" && SWITCHES[3] == "spam";
    assert SWITCHES[4] == "cron" && SWITCHES[5] == "catchall" && SWITCHES[6] == "ssl" && SWITCHES[7] == "ssh";
    assert SWITCHES[8] == "sysinfo" && SWITCHES[9] == "login_keys" && SWITCHES[10] == "dnscontrol";
    assert SWITCHES[11] == "suspend_at_limit" && SWITCHES[12] == "redis" && SWITCHES[13] == "git";
    assert SWITCHES[14] == "wordpress";
  }

  /** The call changes that account, and leaves it the skin it has. */
  predicate HeaderSent(sent: map<string, string>, username: string, current: map<string, string>) {
    && "action" in sent && sent["action"] == "customize" && "user" in sent && sent["user"] == username
    && ("skin" in sent ==> "skin" in current && sent["skin"] == current["skin"])
  }

  lemma HeaderStays(sent: map<string, string>, username: string, current: map<string, string>, s: map<string, string>)
    requires SameOutside(SWITCHES, sent, map["action" := "customize", "user" := username])
    requires "action" !in SWITCHES && "user" !in SWITCHES && "skin" !in SWITCHES
    requires s == sent || ("skin" in current && s == sent["skin" := current["skin"]])
    ensures HeaderSent(s, username, current)
  {
  }

  /** Beside the switches, the parameters of the call and the skin, if the account has one. */
  ghost predicate NothingElse(sent: map<string, string>, current: map<string, string>) {
    forall k :: (k in sent && k !in SWITCHES) <==>
                k in {"action", "user"} || (k == "skin" && "skin" in current && current["skin"] != "")
  }

  method SettingsBack(username: string, current: map<string, string>, header: map<string, string>)
    returns (named: map<string, string>)
    requires header == map["action" := "customize", "user" := username]
    ensures SentBack(SWITCHES, named, current) && Apart(named)
    ensures HeaderSent(named, username, current) && NothingElse(named, current)
  {
    forall k | k in SWITCHES
      ensures Other(k) && k !in {"action", "user", "skin"}
    {
      SwitchesApart(k);
    }
    HeaderApart();
    var sent := SendBack(SWITCHES, current, header);
    named := sent;
    if "skin" in current && current["skin"] != "" {
      named := named["skin" := current["skin"]];
    }
    HeaderStays(sent, username, current, named);
  }

  /**
   * `customizeUserLimits`: nothing is sent when no switch could be read; otherwise the limits are read as meant,
   * just as from a package, and every switch goes back as it was.
   */
  method CustomizeUserLimits(username: string, l: UserLimits, current: map<string, string>) returns (c: Change)
    ensures c.Refused? <==> ReadFailed(current) || forall k | k in SWITCHES :: !Readable(current, k)
    ensures c.Send? ==> Carries(c.body, l) && SentBack(SWITCHES, c.body.named, current) && Apart(c.body.named)
    ensures c.Send? ==> SentInFull(c.body, l)
    ensures c.Send? ==> HeaderSent(c.body.named, username, current) && NothingElse(c.body.named, current)
  {
    var switches := ReadableAmong(SWITCHES, current);
    if ReadFailed(current) || switches == [] {
      return Refused;
    }
    assert switches[0] in switches;
    var body := AccountLimits(username, l);
    var named := SettingsBack(username, current, body.named);
    body := body.(named := named);
    CarriedIsSent(body, l);
    return Send(body);
  }
}
