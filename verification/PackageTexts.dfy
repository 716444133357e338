/** Everything that the body of a package says besides its limits, by the names and texts that are sent. */
module PackageTexts {
  import opened Options
  import opened Text
  import opened Limits

  // ------------------------------------------------------------------ what is said

  predicate Says(m: map<string, string>, name: string, text: string) {
    name in m && m[name] == text
  }

  /** On unless turned off; off unless turned on; and left out unless given. */
  predicate OnByDefault(m: map<string, string>, name: string, v: Option<bool>) {
    Says(m, name, if v == Some(false) then "OFF" else "ON")
  }

  predicate OffByDefault(m: map<string, string>, name: string, v: Option<bool>) {
    Says(m, name, if v == Some(true) then "ON" else "OFF")
  }

  predicate OnlyGiven(m: map<string, string>, name: string, v: Option<bool>) {
    if v.None? then name !in m else OffByDefault(m, name, v)
  }

  /** Whole units of a number that is given, and nothing of one that is not. */
  predicate CountGiven(m: map<string, string>, name: string, v: Option<real>) {
    if v.None? then name !in m else Says(m, name, NumberText(v.value.Floor))
  }

  /** Always sent: empty for no limit, or whole units and the suffix. */
  ghost predicate UnitsOrEmpty(m: map<string, string>, name: string, v: Option<real>, suffix: string) {
    if v.None? then Says(m, name, "") else exists n: nat :: Rounded(n, v.value, 0) && Says(m, name, Decimal(n) + suffix)
  }

  predicate FeaturesInFull(m: map<string, string>, f: Features) {
    && OnByDefault(m, "cgi", f.cgi) && OnByDefault(m, "php", f.php) && OnByDefault(m, "ssl", f.ssl)
    && OnByDefault(m, "spam", f.spam) && OnByDefault(m, "catchall", f.catchall) && OnByDefault(m, "cron", f.cron)
    && OnByDefault(m, "dnscontrol", f.dnscontrol) && OffByDefault(m, "ssh", f.ssh)
    && OnlyGiven(m, "redis", f.redis) && OnlyGiven(m, "git", f.git) && OnlyGiven(m, "wordpress", f.wordpress)
  }

  predicate LveInFull(m: map<string, string>, l: LveLimits) {
    && CountGiven(m, "cpu", l.cpuPercent) && CountGiven(m, "mem", l.memoryMb) && CountGiven(m, "io", l.ioKbps)
    && CountGiven(m, "iops", l.iops) && CountGiven(m, "ep", l.entryProcesses) && CountGiven(m, "nproc", l.nproc)
  }

  ghost predicate CgroupInFull(m: map<string, string>, c: CgroupLimits) {
    && UnitsOrEmpty(m, "CPUQuota", c.cpuQuotaPercent, "%") && UnitsOrEmpty(m, "MemoryHigh", c.memoryHighMb, "M")
    && UnitsOrEmpty(m, "MemoryMax", c.memoryMaxMb, "M") && UnitsOrEmpty(m, "TasksMax", c.tasksMax, "")
    && UnitsOrEmpty(m, "IOReadBandwidthMax", c.ioReadBandwidthKbps, "K")
    && UnitsOrEmpty(m, "IOWriteBandwidthMax", c.ioWriteBandwidthKbps, "K")
    && UnitsOrEmpty(m, "IOReadIOPSMax", c.ioReadIops, "") && UnitsOrEmpty(m, "IOWriteIOPSMax", c.ioWriteIops, "")
  }

  /** Everything in a package's body but the limits, by name and text. */
  ghost predicate TextsInFull(m: map<string, string>, spec: PackageSpec) {
    && Says(m, "add", "Save") && Says(m, "packagename", spec.name)
    && FeaturesInFull(m, spec.features) && LveInFull(m, spec.lve) && CgroupInFull(m, spec.cgroup)
    && (if spec.language == "" then "language" !in m else Says(m, "language", spec.language))
    && Says(m, "skin", if spec.skin.Some? then spec.skin.value else "evolution")
  }

  // ------------------------------------------------------- the names are all different

  const HEAD := {"add", "packagename"}
  const WEB := {"cgi", "php", "ssl", "spam"}
  const SYSTEM := {"catchall", "cron", "ssh"}
  const DNS := {"dnscontrol"}
  const NEW := {"redis", "git", "wordpress"}
  const LVE := {"cpu", "mem", "io"}
  const LVE_COUNTS := {"iops", "ep", "nproc"}
  const CGROUP := {"CPUQuota", "MemoryHigh", "MemoryMax", "TasksMax"}
  const CGROUP_IO := {"IOReadBandwidthMax", "IOWriteBandwidthMax", "IOReadIOPSMax", "IOWriteIOPSMax"}
  const STYLE := {"language", "skin"}

  lemma FeatureNamesApart()
    ensures HEAD !! WEB !! SYSTEM !! DNS !! NEW !! LVE
  {
  }

  lemma CountNamesApart()
    ensures (HEAD + WEB + SYSTEM + DNS + NEW + LVE) !! LVE_COUNTS
  {
  }

  lemma CgroupNamesApart()
    ensures (HEAD + WEB + SYSTEM + DNS + NEW + LVE + LVE_COUNTS) !! CGROUP
  {
  }

  lemma CgroupIoNamesApart()
    ensures (HEAD + WEB + SYSTEM + DNS) !! CGROUP_IO && (NEW + LVE + LVE_COUNTS + CGROUP) !! CGROUP_IO
  {
  }

  lemma StyleNamesApart()
    ensures (HEAD + WEB + SYSTEM + DNS) !! STYLE && (NEW + LVE + LVE_COUNTS) !! STYLE
    ensures (CGROUP + CGROUP_IO) !! STYLE
  {
  }

  lemma FeatureKeys(f: Features)
    ensures WebParams(f).Keys <= WEB && SystemParams(f).Keys <= SYSTEM && DnsParams(f).Keys <= DNS
    ensures NewParams(f).Keys <= NEW
  {
  }

  lemma LveKeys(l: LveLimits)
    ensures LveParams(l).Keys <= LVE && LveCounts(l).Keys <= LVE_COUNTS
  {
  }

  lemma CgroupKeys(c: CgroupLimits)
    ensures CgroupParams(c).Keys <= CGROUP && CgroupIoParams(c).Keys <= CGROUP_IO
  {
  }

  lemma StyleKeys(spec: PackageSpec)
    ensures StyleParams(spec).Keys <= STYLE
  {
  }

  // ------------------------------------------------- so no layer of texts hides another

  predicate SameAt(m: map<string, string>, n: map<string, string>, k: string) {
    (k in m <==> k in n) && (k in n ==> m[k] == n[k])
  }

  predicate Within(ms: seq<map<string, string>>, names: seq<set<string>>) {
    |ms| == |names| && forall i | 0 <= i < |ms| :: ms[i].Keys <= names[i]
  }

  predicate AllApart(names: seq<set<string>>) {
    forall i, j | 0 <= i < j < |names| :: names[i] !! names[j]
  }

  lemma {:induction false} NotNamed(ms: seq<map<string, string>>, names: seq<set<string>>, k: string)
    requires Within(ms, names) && forall i | 0 <= i < |names| :: k !in names[i]
    ensures k !in Merged(ms)
  {
    if ms == [] {
    } else {
      var n := |ms| - 1;
      NotNamed(ms[..n], names[..n], k);
      assert ms[n].Keys <= names[n];
    }
  }

  lemma {:induction false} Kept(ms: seq<map<string, string>>, names: seq<set<string>>, i: nat, k: string)
    requires Within(ms, names) && AllApart(names) && i < |ms| && k in names[i]
    ensures SameAt(Merged(ms), ms[i], k)
  {
    var n := |ms| - 1;
    if i == n {
      forall j | 0 <= j < n
        ensures k !in names[j]
      {
        assert names[j] !! names[n];
      }
      NotNamed(ms[..n], names[..n], k);
    } else {
      Kept(ms[..n], names[..n], i, k);
      assert names[i] !! names[n] && ms[n].Keys <= names[n];
    }
  }

  lemma MergedThen(ms: seq<map<string, string>>, m: map<string, string>)
    ensures Merged(ms + [m]) == Merged(ms) + m
  {
    assert (ms + [m])[..|ms|] == ms;
  }

  lemma MapsRegroup(a: map<string, string>, b: map<string, string>, c: map<string, string>)
    ensures (a + b) + c == a + (b + c)
  {
  }

  lemma {:induction false} MergedFrom(a: map<string, string>, ms: seq<map<string, string>>)
    ensures Merged([a] + ms) == a + Merged(ms)
  {
    if ms == [] {
      assert [a] + ms == [a] && [a][..0] == [];
    } else {
      var front, last := ms[..|ms| - 1], ms[|ms| - 1];
      MergedFrom(a, front);
      MergedThen([a] + front, last);
      assert [a] + ms == ([a] + front) + [last];
      MapsRegroup(a, Merged(front), last);
    }
  }

  function Names(): seq<set<string>> {
    [HEAD, WEB, SYSTEM, DNS, NEW, LVE, LVE_COUNTS, CGROUP, CGROUP_IO, STYLE]
  }

  function Header(spec: PackageSpec): map<string, string> {
    map["add" := "Save", "packagename" := spec.name]
  }

  function Layers(spec: PackageSpec): seq<map<string, string>> {
    [Header(spec)] + ExtraLayers(spec)
  }

  lemma NamesApart()
    ensures AllApart(Names())
  {
    FeatureNamesApart();
    CountNamesApart();
    CgroupNamesApart();
    CgroupIoNamesApart();
    StyleNamesApart();
    FourLast(HEAD, WEB, SYSTEM, DNS, NEW, LVE, LVE_COUNTS, CGROUP, CGROUP_IO, STYLE);
  }

  lemma FourLast(a: set<string>, b: set<string>, c: set<string>, d: set<string>, e: set<string>, f: set<string>,
                 g: set<string>, h: set<string>, i: set<string>, j: set<string>)
    requires a !! b !! c !! d !! e !! f && (a + b + c + d + e + f) !! g && (a + b + c + d + e + f + g) !! h
    requires (a + b + c + d) !! i && (e + f + g + h) !! i
    requires (a + b + c + d) !! j && (e + f + g) !! j && (h + i) !! j
    ensures AllApart([a, b, c, d, e, f, g, h, i, j])
  {
    forall k | k in j
      ensures k !in a && k !in b && k !in c && k !in d && k !in e && k !in f && k !in g && k !in h && k !in i
    {
      assert k !in a + b + c + d && k !in e + f + g && k !in h + i;
    }
    forall k | k in i
      ensures k !in a && k !in b && k !in c && k !in d && k !in e && k !in f && k !in g && k !in h
    {
      assert k !in a + b + c + d && k !in e + f + g + h;
    }
    forall k | k in h
      ensures k !in a && k !in b && k !in c && k !in d && k !in e && k !in f && k !in g
    {
      assert k !in a + b + c + d + e + f + g;
    }
    forall k | k in g
      ensures k !in a && k !in b && k !in c && k !in d && k !in e && k !in f
    {
      assert k !in a + b + c + d + e + f;
    }
  }

  lemma LayersWithin(spec: PackageSpec)
    ensures Within(Layers(spec), Names())
  {
    FeatureKeys(spec.features);
    LveKeys(spec.lve);
    CgroupKeys(spec.cgroup);
    StyleKeys(spec);
  }

  function Body(spec: PackageSpec): map<string, string> {
    Header(spec) + Extras(spec)
  }

  lemma LayerKept(spec: PackageSpec, i: nat, k: string)
    requires i < 10 && k in Names()[i]
    ensures SameAt(Body(spec), Layers(spec)[i], k)
  {
    NamesApart();
    LayersWithin(spec);
    Kept(Layers(spec), Names(), i, k);
    MergedFrom(Header(spec), ExtraLayers(spec));
  }

  // ----------------------------------------------------------------- what it comes to

  lemma WebSaid(f: Features)
    ensures var m := WebParams(f);
            && OnByDefault(m, "cgi", f.cgi) && OnByDefault(m, "php", f.php) && OnByDefault(m, "ssl", f.ssl)
            && OnByDefault(m, "spam", f.spam)
  {
  }

  lemma SystemSaid(f: Features)
    ensures var m := SystemParams(f);
            OnByDefault(m, "catchall", f.catchall) && OnByDefault(m, "cron", f.cron) && OffByDefault(m, "ssh", f.ssh)
    ensures OnByDefault(DnsParams(f), "dnscontrol", f.dnscontrol)
  {
  }

  lemma NewSaid(f: Features)
    ensures var m := NewParams(f);
            OnlyGiven(m, "redis", f.redis) && OnlyGiven(m, "git", f.git) && OnlyGiven(m, "wordpress", f.wordpress)
  {
  }

  lemma LveSaid(l: LveLimits)
    ensures var m := LveParams(l);
            CountGiven(m, "cpu", l.cpuPercent) && CountGiven(m, "mem", l.memoryMb) && CountGiven(m, "io", l.ioKbps)
    ensures var m := LveCounts(l);
            && CountGiven(m, "iops", l.iops) && CountGiven(m, "ep", l.entryProcesses)
            && CountGiven(m, "nproc", l.nproc)
  {
  }

  lemma UnitsSaid(m: map<string, string>, name: string, v: Option<real>, suffix: string)
    requires Says(m, name, CgroupText(v, suffix))
    ensures UnitsOrEmpty(m, name, v, suffix)
  {
    if v.Some? {
      RoundedIs(AtLeast(0, v.value), v.value, 0);
    }
  }

  lemma CgroupSaid(c: CgroupLimits)
    ensures var m := CgroupParams(c);
            && Says(m, "CPUQuota", CgroupText(c.cpuQuotaPercent, "%"))
            && Says(m, "MemoryHigh", CgroupText(c.memoryHighMb, "M"))
            && Says(m, "MemoryMax", CgroupText(c.memoryMaxMb, "M")) && Says(m, "TasksMax", CgroupText(c.tasksMax, ""))
    ensures var m := CgroupIoParams(c);
            && Says(m, "IOReadBandwidthMax", CgroupText(c.ioReadBandwidthKbps, "K"))
            && Says(m, "IOWriteBandwidthMax", CgroupText(c.ioWriteBandwidthKbps, "K"))
            && Says(m, "IOReadIOPSMax", CgroupText(c.ioReadIops, ""))
            && Says(m, "IOWriteIOPSMax", CgroupText(c.ioWriteIops, ""))
  {
  }

  lemma StyleSaid(spec: PackageSpec)
    ensures var m := StyleParams(spec);
            && (if spec.language == "" then "language" !in m else Says(m, "language", spec.language))
            && Says(m, "skin", if spec.skin.Some? then spec.skin.value else "evolution")
  {
  }

  lemma OnKept(spec: PackageSpec, i: nat, name: string, v: Option<bool>)
    requires i < 10 && name in Names()[i] && OnByDefault(Layers(spec)[i], name, v)
    ensures OnByDefault(Body(spec), name, v)
  {
    LayerKept(spec, i, name);
  }

  lemma GivenKept(spec: PackageSpec, i: nat, name: string, v: Option<bool>)
    requires i < 10 && name in Names()[i] && OnlyGiven(Layers(spec)[i], name, v)
    ensures OnlyGiven(Body(spec), name, v)
  {
    LayerKept(spec, i, name);
  }

  lemma WebKept(spec: PackageSpec)
    ensures var m, f := Body(spec), spec.features;
            && OnByDefault(m, "cgi", f.cgi) && OnByDefault(m, "php", f.php) && OnByDefault(m, "ssl", f.ssl)
            && OnByDefault(m, "spam", f.spam)
  {
    var f := spec.features;
    WebSaid(f);
    OnKept(spec, 1, "cgi", f.cgi);
    OnKept(spec, 1, "php", f.php);
    OnKept(spec, 1, "ssl", f.ssl);
    OnKept(spec, 1, "spam", f.spam);
  }

  lemma SystemKept(spec: PackageSpec)
    ensures var m, f := Body(spec), spec.features;
            && OnByDefault(m, "catchall", f.catchall) && OnByDefault(m, "cron", f.cron)
            && OffByDefault(m, "ssh", f.ssh) && OnByDefault(m, "dnscontrol", f.dnscontrol)
  {
    var f := spec.features;
    SystemSaid(f);
    OnKept(spec, 2, "catchall", f.catchall);
    OnKept(spec, 2, "cron", f.cron);
    LayerKept(spec, 2, "ssh");
    OnKept(spec, 3, "dnscontrol", f.dnscontrol);
  }

  lemma NewKept(spec: PackageSpec)
    ensures var m, f := Body(spec), spec.features;
            OnlyGiven(m, "redis", f.redis) && OnlyGiven(m, "git", f.git) && OnlyGiven(m, "wordpress", f.wordpress)
  {
    var f := spec.features;
    NewSaid(f);
    GivenKept(spec, 4, "redis", f.redis);
    GivenKept(spec, 4, "git", f.git);
    GivenKept(spec, 4, "wordpress", f.wordpress);
  }

  lemma FeaturesKept(spec: PackageSpec)
    ensures FeaturesInFull(Body(spec), spec.features)
  {
    WebKept(spec);
    SystemKept(spec);
    NewKept(spec);
  }

  lemma CountKept(spec: PackageSpec, i: nat, name: string, v: Option<real>)
    requires i < 10 && name in Names()[i] && CountGiven(Layers(spec)[i], name, v)
    ensures CountGiven(Body(spec), name, v)
  {
    LayerKept(spec, i, name);
  }

  lemma LveKept(spec: PackageSpec)
    ensures LveInFull(Body(spec), spec.lve)
  {
    var l := spec.lve;
    LveSaid(l);
    CountKept(spec, 5, "cpu", l.cpuPercent);
    CountKept(spec, 5, "mem", l.memoryMb);
    CountKept(spec, 5, "io", l.ioKbps);
    CountKept(spec, 6, "iops", l.iops);
    CountKept(spec, 6, "ep", l.entryProcesses);
    CountKept(spec, 6, "nproc", l.nproc);
  }

  lemma UnitsKept(spec: PackageSpec, i: nat, name: string, v: Option<real>, suffix: string)
    requires i < 10 && name in Names()[i] && Says(Layers(spec)[i], name, CgroupText(v, suffix))
    ensures UnitsOrEmpty(Body(spec), name, v, suffix)
  {
    LayerKept(spec, i, name);
    UnitsSaid(Body(spec), name, v, suffix);
  }

  lemma CgroupKept(spec: PackageSpec)
    ensures CgroupInFull(Body(spec), spec.cgroup)
  {
    var c := spec.cgroup;
    CgroupSaid(c);
    UnitsKept(spec, 7, "CPUQuota", c.cpuQuotaPercent, "%");
    UnitsKept(spec, 7, "MemoryHigh", c.memoryHighMb, "M");
    UnitsKept(spec, 7, "MemoryMax", c.memoryMaxMb, "M");
    UnitsKept(spec, 7, "TasksMax", c.tasksMax, "");
    UnitsKept(spec, 8, "IOReadBandwidthMax", c.ioReadBandwidthKbps, "K");
    UnitsKept(spec, 8, "IOWriteBandwidthMax", c.ioWriteBandwidthKbps, "K");
    UnitsKept(spec, 8, "IOReadIOPSMax", c.ioReadIops, "");
    UnitsKept(spec, 8, "IOWriteIOPSMax", c.ioWriteIops, "");
  }

  /** The body that `BuildPackageParams` ensures says all of this, and no text hides another. */
  lemma PackageSaysInFull(spec: PackageSpec)
    ensures TextsInFull(map["add" := "Save", "packagename" := spec.name] + Extras(spec), spec)
  {
    FeaturesKept(spec);
    LveKept(spec);
    CgroupKept(spec);
    StyleSaid(spec);
    LayerKept(spec, 9, "language");
    LayerKept(spec, 9, "skin");
    LayerKept(spec, 0, "add");
    LayerKept(spec, 0, "packagename");
  }
}
