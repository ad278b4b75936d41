/**
 How one GPU is told from another: the stable identifier, the label tuple of its series and the
 string keys of its stored state (exporter.go, metrics.go, dcgm_client.go).
 */
module Identity {
  import opened FieldSets

  datatype Option<+T> = None | Some(value: T)

  datatype GpuInfo = GpuInfo(
    id: nat,
    index: string,
    name: string,
    uuid: string,
    pciBusId: string,
    memoryTotalBytes: real,
    powerLimitWatts: Option<real>)

  datatype Labels = Labels(gpuIndex: string, gpuUuid: string, pciBusId: string, gpuName: string, hostname: string)

  // ----- Strings reported by DCGM ----------------------------------------------------------

  predicate IsSpace(c: char) { c in {' ', '\t', '\n', '\r', '\U{0B}', '\U{0C}', '\U{85}', '\U{A0}'} }

  function TrimLeft(s: string): string {
    if s != [] && IsSpace(s[0]) then TrimLeft(s[1..]) else s
  }

  function TrimRight(s: string): string {
    if s != [] && IsSpace(s[|s| - 1]) then TrimRight(s[..|s| - 1]) else s
  }

  predicate AllSpace(s: string) { forall i :: 0 <= i < |s| ==> IsSpace(s[i]) }

  lemma {:induction false} TrimLeftMeaning(s: string) returns (k: nat)
    ensures k <= |s| && TrimLeft(s) == s[k..] && AllSpace(s[..k]) && (k < |s| ==> !IsSpace(s[k]))
  {
    if s == [] || !IsSpace(s[0]) {
      k := 0;
    } else {
      k := TrimLeftMeaning(s[1..]);
      assert s[1..][k..] == s[k + 1..] && s[..k + 1] == [s[0]] + s[1..][..k];
      k := k + 1;
    }
  }

  lemma {:induction false} TrimRightMeaning(s: string) returns (k: nat)
    ensures k <= |s| && TrimRight(s) == s[..k] && AllSpace(s[k..]) && (k > 0 ==> !IsSpace(s[k - 1]))
  {
    if s == [] || !IsSpace(s[|s| - 1]) {
      k := |s|;
    } else {
      var n := |s| - 1;
      k := TrimRightMeaning(s[..n]);
      assert s[..n][..k] == s[..k] && s[k..] == s[..n][k..] + [s[n]];
    }
  }

  /** Trimming takes away the space around a string and nothing else. */
  lemma TrimmedMeaning(s: string) returns (i: nat, j: nat)
    ensures i <= j <= |s| && TrimRight(TrimLeft(s)) == s[i..j] && AllSpace(s[..i]) && AllSpace(s[j..])
    ensures i < j ==> !IsSpace(s[i]) && !IsSpace(s[j - 1])
  {
    i := TrimLeftMeaning(s);
    var k := TrimRightMeaning(s[i..]);
    j := i + k;
    assert s[i..][..k] == s[i..j] && s[i..][k..] == s[j..];
  }

  predicate Placeholder(s: string) { |s| >= 3 && s[0] == '<' && s[1] == '<' && s[2] == '<' }

  /** validDCGMString: the trimmed string, or nothing for a blank or a "<<<" placeholder. */
  function ValidString(s: string): string {
    var trimmed := TrimRight(TrimLeft(s));
    if trimmed == "" || Placeholder(trimmed) then "" else trimmed
  }

  predicate Blank(s: string) { ValidString(s) == "" }

  /** A valid string is what is left of it without the space around it; nothing, when that begins with "<<<". */
  lemma ValidMeaning(s: string) returns (i: nat, j: nat)
    ensures i <= j <= |s| && AllSpace(s[..i]) && AllSpace(s[j..]) && (i < j ==> !IsSpace(s[i]) && !IsSpace(s[j - 1]))
    ensures ValidString(s) == if "<<<" <= s[i..j] then "" else s[i..j]
  {
    i, j := TrimmedMeaning(s);
    var t := s[i..j];
    if |t| >= 3 {
      assert "<<<" <= t <==> "<<<"[0] == t[0] && "<<<"[1] == t[1] && "<<<"[2] == t[2];
    }
  }

  /** What is valid stays as it is. */
  lemma ValidStaysValid(s: string)
    ensures ValidString(ValidString(s)) == ValidString(s)
  {
    var i, j := TrimmedMeaning(s);
    var t := s[i..j];
    if t != "" {
      assert t[0] == s[i] && t[|t| - 1] == s[j - 1];
      assert TrimLeft(t) == t && TrimRight(t) == t;
    }
  }

  function FirstNonEmpty(first: string, fallback: string): string {
    if Blank(first) then ValidString(fallback) else ValidString(first)
  }

  /** A value that names a device: present, and not the word the exporter writes for a missing one. */
  predicate Known(s: string) { ValidString(s) != "" && ValidString(s) != "unknown" }

  function Digit(d: nat): char
    requires d < 10
  {
    ('0' as int + d) as char
  }

  /** The decimal rendering of %d. */
  function Decimal(n: nat): (s: string)
    ensures s != "" && forall i :: 0 <= i < |s| ==> '0' <= s[i] <= '9'
  {
    if n < 10 then [Digit(n)] else Decimal(n / 10) + [Digit(n % 10)]
  }

  /** The number a string of decimal digits stands for. */
  function NumberOf(digits: string): int {
    if digits == "" then 0
    else 10 * NumberOf(digits[..|digits| - 1]) + (digits[|digits| - 1] as int - '0' as int)
  }

  lemma {:induction false} DecimalRoundTrip(n: nat)
    ensures NumberOf(Decimal(n)) == n
  {
    var s := Decimal(n);
    if n < 10 {
      assert s[..0] == "" && NumberOf(s[..0]) == 0;
    } else {
      assert s[..|s| - 1] == Decimal(n / 10);
      DecimalRoundTrip(n / 10);
    }
  }

  lemma DecimalInjective(m: nat, n: nat)
    requires Decimal(m) == Decimal(n)
    ensures m == n
  {
    DecimalRoundTrip(m);
    DecimalRoundTrip(n);
  }

  function SignedDecimal(n: int): string { if n < 0 then "-" + Decimal(-n) else Decimal(n) }

  lemma NumbersAreNotBlank(n: int)
    ensures !Blank(SignedDecimal(n))
  {
    var s := SignedDecimal(n);
    assert s[0] != '<' && !IsSpace(s[0]) && !IsSpace(s[|s| - 1]);
  }

  function GpuOrdinal(id: nat): string { "gpu-" + Decimal(id) }

  lemma GpuOrdinalIsValid(id: nat)
    ensures ValidString(GpuOrdinal(id)) == GpuOrdinal(id)
  {
    var s := GpuOrdinal(id);
    assert s[0] == 'g' && s[|s| - 1] == Decimal(id)[|Decimal(id)| - 1];
  }

  /** stableGPUIdentifier: the UUID, else the PCI bus id, else the index, else gpu-<id>. */
  function StableIdentifier(info: GpuInfo): string {
    if Known(info.uuid) then ValidString(info.uuid)
    else if Known(info.pciBusId) then ValidString(info.pciBusId)
    else if !Blank(info.index) then ValidString(info.index)
    else if !Blank(GpuOrdinal(info.id)) then ValidString(GpuOrdinal(info.id))
    else "unknown"
  }

  /** What the identifier is, by what is known of the GPU. */
  lemma IdentifierByPrecedence(info: GpuInfo)
    ensures Known(info.uuid) ==> StableIdentifier(info) == ValidString(info.uuid)
    ensures !Known(info.uuid) && Known(info.pciBusId) ==> StableIdentifier(info) == ValidString(info.pciBusId)
    ensures !Known(info.uuid) && !Known(info.pciBusId) ==>
              StableIdentifier(info) == if Blank(info.index) then GpuOrdinal(info.id) else ValidString(info.index)
  {
    GpuOrdinalIsValid(info.id);
  }

  /** A GPU with a known UUID keeps its identifier whatever becomes of its bus id, index, name and number. */
  lemma KnownUuidKeepsIdentifier(before: GpuInfo, after: GpuInfo)
    requires Known(before.uuid) && ValidString(after.uuid) == ValidString(before.uuid)
    ensures StableIdentifier(after) == StableIdentifier(before)
  {
  }

  /** And two GPUs with different known UUIDs have different identifiers. */
  lemma KnownUuidsTellApart(a: GpuInfo, b: GpuInfo)
    requires Known(a.uuid) && Known(b.uuid) && ValidString(a.uuid) != ValidString(b.uuid)
    ensures StableIdentifier(a) != StableIdentifier(b)
  {
  }

  /** The label tuple shows the identity as reported; "unknown" stands for what is not. */
  lemma LabelsShowIdentity(info: GpuInfo, hostname: string)
    ensures var labels := LabelsFor(info, hostname);
            && labels.hostname == hostname
            && labels.gpuUuid == (if Blank(info.uuid) then "unknown" else ValidString(info.uuid))
            && labels.pciBusId == (if Blank(info.pciBusId) then "unknown" else ValidString(info.pciBusId))
            && labels.gpuIndex == (if Blank(info.index) then "unknown" else ValidString(info.index))
            && labels.gpuName == (if Blank(info.name) then "unknown" else ValidString(info.name))
  {
    UnknownIsValid();
  }

  function LabelsFor(info: GpuInfo, hostname: string): Labels {
    Labels(
      FirstNonEmpty(info.index, "unknown"),
      FirstNonEmpty(info.uuid, "unknown"),
      FirstNonEmpty(info.pciBusId, "unknown"),
      FirstNonEmpty(info.name, "unknown"),
      hostname)
  }

  /** gpuInfoLabelsEqual compares the raw values. */
  predicate SameIdentity(left: GpuInfo, right: GpuInfo) {
    left.index == right.index && left.uuid == right.uuid && left.pciBusId == right.pciBusId && left.name == right.name
  }

  /** The parts of the identity are trimmed and present, as they are in every identity the client reports. */
  predicate IsClean(info: GpuInfo) {
    && !Blank(info.index) && !Blank(info.uuid) && !Blank(info.pciBusId) && !Blank(info.name)
    && ValidString(info.index) == info.index && ValidString(info.uuid) == info.uuid
    && ValidString(info.pciBusId) == info.pciBusId && ValidString(info.name) == info.name
  }

  /** For such identities nothing but the label tuple decides whether a GPU is the same as before. */
  lemma SameLabelsSameIdentity(left: GpuInfo, right: GpuInfo, hostname: string)
    requires IsClean(left) && IsClean(right)
    ensures SameIdentity(left, right) <==> LabelsFor(left, hostname) == LabelsFor(right, hostname)
  {
    LabelsShowIdentity(left, hostname);
    LabelsShowIdentity(right, hostname);
  }

  lemma UnknownIsValid()
    ensures ValidString("unknown") == "unknown"
  {
    assert "unknown"[0] == 'u' && "unknown"[6] == 'n';
  }

  lemma SameLabelSameValue(a: string, b: string)
    requires FirstNonEmpty(a, "unknown") == FirstNonEmpty(b, "unknown")
    ensures Known(a) == Known(b) && (Known(a) || (!Blank(a) && !Blank(b)) ==> ValidString(a) == ValidString(b))
  {
    UnknownIsValid();
  }

  /**
   When two GPUs carry the same label tuple, they have the same stable identifier exactly if a
   UUID or a bus id is known, or both indexes are present, or both are blank and the ids agree.
   */
  lemma EqualLabelsSameIdentifierExactly(i: GpuInfo, j: GpuInfo, hostname: string)
    requires LabelsFor(i, hostname) == LabelsFor(j, hostname)
    ensures StableIdentifier(i) == StableIdentifier(j) <==>
            || Known(i.uuid)
            || Known(i.pciBusId)
            || (!Blank(i.index) && !Blank(j.index))
            || (Blank(i.index) && Blank(j.index) && i.id == j.id)
  {
    SameLabelSameValue(i.uuid, j.uuid);
    SameLabelSameValue(i.pciBusId, j.pciBusId);
    SameLabelSameValue(i.index, j.index);
    UnknownIsValid();
    GpuOrdinalIsValid(i.id);
    GpuOrdinalIsValid(j.id);
    assert GpuOrdinal(i.id)[0] == 'g' && GpuOrdinal(j.id)[0] == 'g' && "unknown"[0] == 'u';
    if GpuOrdinal(i.id) == GpuOrdinal(j.id) {
      assert GpuOrdinal(i.id)[4..] == Decimal(i.id) && GpuOrdinal(j.id)[4..] == Decimal(j.id);
      DecimalInjective(i.id, j.id);
    }
  }

  /** The client always fills the index in, and then labels do determine the identifier. */
  lemma LabelsDetermineIdentifier(i: GpuInfo, j: GpuInfo, hostname: string)
    requires LabelsFor(i, hostname) == LabelsFor(j, hostname) && !Blank(i.index) && !Blank(j.index)
    ensures StableIdentifier(i) == StableIdentifier(j)
  {
    EqualLabelsSameIdentifierExactly(i, j, hostname);
  }

  /** Two GPUs of which nothing is known but their numbers share every label and are still two GPUs. */
  lemma BlankGpusShareLabels(hostname: string)
    ensures var a := GpuInfo(0, "", "", "", "", 0.0, None);
            var b := a.(id := 1);
            LabelsFor(a, hostname) == LabelsFor(b, hostname) && StableIdentifier(a) != StableIdentifier(b)
  {
    var a := GpuInfo(0, "", "", "", "", 0.0, None);
    EqualLabelsSameIdentifierExactly(a, a.(id := 1), hostname);
  }

  // ----- Keys of stored state --------------------------------------------------------------

  /** identifier:suffix, the form of every key of hardwareCounters and observationTimes. */
  function Key(identifier: string, suffix: string): string { identifier + ":" + suffix }

  function ObservationKey(info: GpuInfo, field: FieldId): string { Key(StableIdentifier(info), Decimal(field)) }

  function HardwareCounterKey(info: GpuInfo, counter: string): string { Key(StableIdentifier(info), counter) }

  /** Equal keys split at different colons only when one suffix ends in ':' and the other suffix. */
  lemma EqualKeys(a: string, s: string, b: string, t: string)
    requires Key(a, s) == Key(b, t) && |s| <= |t|
    ensures |s| == |t| ==> a == b && s == t
    ensures |s| < |t| ==> t[|t| - |s| - 1] == ':' && (s != "" ==> t[|t| - |s|] == s[0])
  {
    var key := Key(a, s);
    var n := |key| - |s|;
    assert key[n..] == s && key[n - 1] == ':' && key[..n - 1] == a;
    assert key[|key| - |t|..] == t && key[..|key| - |t| - 1] == b;
    if |s| < |t| {
      assert t[|t| - |s| - 1] == key[n - 1];
      assert s != "" ==> t[|t| - |s|] == key[n] == s[0];
    }
  }

  /** Observation keys determine identifier and field, colons in identifiers or not. */
  lemma ObservationKeysInjective(a: string, f: FieldId, b: string, g: FieldId)
    ensures Key(a, Decimal(f)) == Key(b, Decimal(g)) <==> a == b && f == g
  {
    if Key(a, Decimal(f)) == Key(b, Decimal(g)) {
      if |Decimal(f)| <= |Decimal(g)| {
        EqualKeys(a, Decimal(f), b, Decimal(g));
      } else {
        EqualKeys(b, Decimal(g), a, Decimal(f));
      }
      DecimalInjective(f, g);
    }
  }

  /** The suffixes observeReliabilityCounters gives to hardwareCounterKey. */
  function CounterSuffixes(): seq<string> { PlainSuffixes() + ViolationSuffixes() }

  function PlainSuffixes(): seq<string> { EventSuffixes() + PageSuffixes() }

  function EventSuffixes(): seq<string> {
    ["energy", "pcie_replay", "ecc:volatile:sbe", "ecc:volatile:dbe", "ecc:aggregate:sbe", "ecc:aggregate:dbe"]
  }

  function PageSuffixes(): seq<string> {
    ["retired_pages:sbe", "retired_pages:dbe", "remapped_rows:correctable", "remapped_rows:uncorrectable"]
  }

  function ViolationSuffixes(): seq<string> {
    ["clock_violation:power", "clock_violation:thermal", "clock_violation:sync_boost", "clock_violation:board_limit",
     "clock_violation:low_utilization", "clock_violation:reliability", "clock_violation:application_clocks",
     "clock_violation:base_clocks"]
  }

  /** `t` does not end in a colon, a first character like that of `s`, and as many characters as `s` has behind it. */
  predicate NoTail(s: string, t: string) {
    |s| < |t| && s != "" ==> t[|t| - |s| - 1] != ':' || t[|t| - |s|] != s[0]
  }

  lemma EventTails(s: string, t: string)
    requires s in EventSuffixes() && t in EventSuffixes()
    ensures NoTail(s, t)
  {
  }

  lemma EventTailsOfPages(s: string, t: string)
    requires s in EventSuffixes() && t in PageSuffixes()
    ensures NoTail(s, t)
  {
  }

  lemma PageTailsOfEvents(s: string, t: string)
    requires s in PageSuffixes() && t in EventSuffixes()
    ensures NoTail(s, t)
  {
  }

  lemma PageTails(s: string, t: string)
    requires s in PageSuffixes() && t in PageSuffixes()
    ensures NoTail(s, t)
  {
  }

  lemma EventTailsOfViolations(s: string, t: string)
    requires s in EventSuffixes() && t in ViolationSuffixes()
    ensures NoTail(s, t)
  {
  }

  lemma PageTailsOfViolations(s: string, t: string)
    requires s in PageSuffixes() && t in ViolationSuffixes()
    ensures NoTail(s, t)
  {
  }

  lemma ViolationTailsOfEvents(s: string, t: string)
    requires s in ViolationSuffixes() && t in EventSuffixes()
    ensures NoTail(s, t)
  {
  }

  lemma ViolationTailsOfPages(s: string, t: string)
    requires s in ViolationSuffixes() && t in PageSuffixes()
    ensures NoTail(s, t)
  {
  }

  lemma ViolationTails(s: string, t: string)
    requires s in ViolationSuffixes() && t in ViolationSuffixes()
    ensures NoTail(s, t)
  {
  }

  /** No counter suffix is the tail of another one after a colon. */
  lemma SuffixesDoNotNest(s: string, t: string)
    requires s in CounterSuffixes() && t in CounterSuffixes()
    ensures s != "" && NoTail(s, t)
  {
    if s in EventSuffixes() {
      TailsOfEvents(s, t);
    } else if s in PageSuffixes() {
      TailsOfPages(s, t);
    } else {
      TailsOfViolations(s, t);
    }
  }

  lemma TailsOfEvents(s: string, t: string)
    requires s in EventSuffixes() && t in CounterSuffixes()
    ensures s != "" && NoTail(s, t)
  {
    if t in EventSuffixes() {
      EventTails(s, t);
    } else if t in PageSuffixes() {
      EventTailsOfPages(s, t);
    } else {
      EventTailsOfViolations(s, t);
    }
  }

  lemma TailsOfPages(s: string, t: string)
    requires s in PageSuffixes() && t in CounterSuffixes()
    ensures s != "" && NoTail(s, t)
  {
    if t in EventSuffixes() {
      PageTailsOfEvents(s, t);
    } else if t in PageSuffixes() {
      PageTails(s, t);
    } else {
      PageTailsOfViolations(s, t);
    }
  }

  lemma TailsOfViolations(s: string, t: string)
    requires s in ViolationSuffixes() && t in CounterSuffixes()
    ensures s != "" && NoTail(s, t)
  {
    if t in EventSuffixes() {
      ViolationTailsOfEvents(s, t);
    } else if t in PageSuffixes() {
      ViolationTailsOfPages(s, t);
    } else {
      ViolationTails(s, t);
    }
  }

  /** Hardware counter keys determine identifier and counter. */
  lemma HardwareKeysInjective(a: string, s: string, b: string, t: string)
    requires s in CounterSuffixes() && t in CounterSuffixes()
    ensures Key(a, s) == Key(b, t) <==> a == b && s == t
  {
    if Key(a, s) == Key(b, t) {
      if |s| <= |t| {
        EqualKeys(a, s, b, t);
        SuffixesDoNotNest(s, t);
      } else {
        EqualKeys(b, t, a, s);
        SuffixesDoNotNest(t, s);
      }
    }
  }

  // ----- Deletion by prefix ----------------------------------------------------------------

  /** deleteGPUState drops a key when it starts with the identifier and a colon. */
  predicate Dropped(identifier: string, key: string) { identifier + ":" <= key }

  /** Neither identifier, with a colon behind it, begins the other. */
  predicate Separate(a: string, b: string) { !(a + ":" <= b) && !(b + ":" <= a) }

  lemma OwnKeysDropped(a: string, suffix: string)
    ensures Dropped(a, Key(a, suffix))
  {
    assert Key(a, suffix) == (a + ":") + suffix;
  }

  lemma DroppedKeyIsOwnOrNotSeparate(a: string, b: string, suffix: string)
    requires Dropped(a, Key(b, suffix))
    ensures a == b || !Separate(a, b)
  {
    var key := Key(b, suffix);
    assert key[..|a| + 1] == a + ":" && key[..|b| + 1] == b + ":";
    if |a| < |b| {
      assert b[..|a| + 1] == key[..|a| + 1];
    } else if |b| < |a| {
      assert a[..|b| + 1] == (a + ":")[..|b| + 1] == key[..|b| + 1];
    } else {
      assert a == (a + ":")[..|a|] == key[..|b|] == b;
    }
  }

  /** The suffixes of the keys of a GPU: field numbers and counter names. */
  ghost predicate KeySuffix(suffix: string) { suffix in CounterSuffixes() || exists f :: suffix == Decimal(f) }

  /** Deleting `a` reaches a key that is kept for `b`. */
  ghost predicate Reaches(a: string, b: string) { exists suffix :: KeySuffix(suffix) && Dropped(a, Key(b, suffix)) }

  /** `a` is `b`, a colon and the beginning of a counter name up to a later colon of it. */
  ghost predicate NamesCounterOf(a: string, b: string) {
    exists part, suffix :: suffix in CounterSuffixes() && part + ":" <= suffix && a == Key(b, part)
  }

  lemma ColonOfKey(a: string, b: string, suffix: string)
    requires Dropped(a, Key(b, suffix)) && |a| > |b|
    ensures var n := |a| - |b| - 1;
            n < |suffix| && suffix[n] == ':' && suffix[..n] + ":" <= suffix && a == Key(b, suffix[..n])
  {
    var key, n := Key(b, suffix), |a| - |b| - 1;
    assert key[..|a| + 1] == a + ":";
    assert key[|b| + 1..] == suffix && suffix[n] == key[|a|] == (a + ":")[|a|] == ':';
    assert suffix[..n] + ":" == suffix[..n + 1];
    assert a == key[..|a|] == Key(b, suffix[..n]);
  }

  lemma ReachedKey(a: string, b: string, suffix: string)
    requires a != b && KeySuffix(suffix) && Dropped(a, Key(b, suffix))
    ensures a + ":" <= b || NamesCounterOf(a, b)
  {
    if |a| < |b| {
      DroppedByBeginning(a, b, suffix);
    } else if |a| > |b| {
      ColonOfKey(a, b, suffix);
      NumbersHaveNoColon(suffix);
    } else {
      DroppedByItself(a, b, suffix);
    }
  }

  lemma DroppedByBeginning(a: string, b: string, suffix: string)
    requires Dropped(a, Key(b, suffix)) && |a| < |b|
    ensures a + ":" <= b
  {
    var key := Key(b, suffix);
    assert a + ":" == key[..|a| + 1] == b[..|a| + 1];
  }

  lemma DroppedByItself(a: string, b: string, suffix: string)
    requires Dropped(a, Key(b, suffix)) && |a| == |b|
    ensures a == b
  {
    var key := Key(b, suffix);
    assert a == (a + ":")[..|a|] == key[..|a|] == b;
  }

  lemma NumbersHaveNoColon(suffix: string)
    requires KeySuffix(suffix) && ':' in suffix
    ensures suffix in CounterSuffixes()
  {
  }

  lemma BeginningReaches(a: string, b: string)
    requires a + ":" <= b
    ensures Reaches(a, b)
  {
    assert Key(b, Decimal(0)) == (a + ":") + (b[|a| + 1..] + ":" + Decimal(0));
    assert KeySuffix(Decimal(0)) && Dropped(a, Key(b, Decimal(0)));
  }

  lemma CounterNameReaches(a: string, b: string)
    requires NamesCounterOf(a, b)
    ensures Reaches(a, b)
  {
    var part, suffix :| suffix in CounterSuffixes() && part + ":" <= suffix && a == Key(b, part);
    NamedKeyDropped(a, b, part, suffix);
    assert KeySuffix(suffix);
  }

  lemma NamedKeyDropped(a: string, b: string, part: string, suffix: string)
    requires part + ":" <= suffix && a == Key(b, part)
    ensures Dropped(a, Key(b, suffix))
  {
    assert suffix == (part + ":") + suffix[|part| + 1..];
    assert Key(b, suffix) == (a + ":") + suffix[|part| + 1..];
  }

  /**
   Deleting one GPU's state reaches another one's exactly when its identifier begins the other's, or
   names a counter of it.
   */
  lemma PrefixDeletionExact(a: string, b: string)
    requires a != b
    ensures Reaches(a, b) <==> a + ":" <= b || NamesCounterOf(a, b)
  {
    if Reaches(a, b) {
      var suffix :| KeySuffix(suffix) && Dropped(a, Key(b, suffix));
      ReachedKey(a, b, suffix);
    }
    if a + ":" <= b { BeginningReaches(a, b); }
    if NamesCounterOf(a, b) { CounterNameReaches(a, b); }
  }

  /** Two GPUs leave each other's keys alone exactly when their identifiers are separate. */
  lemma SeparateExactly(a: string, b: string)
    requires a != b
    ensures !Reaches(a, b) && !Reaches(b, a) <==> Separate(a, b)
  {
    PrefixDeletionExact(a, b);
    PrefixDeletionExact(b, a);
    if NamesCounterOf(a, b) {
      var part, suffix :| suffix in CounterSuffixes() && part + ":" <= suffix && a == Key(b, part);
      assert a == (b + ":") + part;
    }
    if NamesCounterOf(b, a) {
      var part, suffix :| suffix in CounterSuffixes() && part + ":" <= suffix && b == Key(a, part);
      assert b == (a + ":") + part;
    }
  }
}
