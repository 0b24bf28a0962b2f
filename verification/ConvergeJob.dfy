/** The Job that runs `werf converge` (internal/converge/job.go). */
module ConvergeJob {
  import opened Wrappers
  import opened BundleTypes
  import opened Numerals
  import opened Resolving
  import opened SetFlags
  import opened Strings
  import Backoff

  // Job names.

  const MAX_NAME: nat := 253

  const MODULUS: nat := 0x1_0000_0000

  function ByteOf(c: char): (byte: nat)
    ensures byte < 256
  {
    c as int % 256
  }

  /** a with its last binary digits, `bits` in number, combined with those of b by exclusive or. */
  function Xor(a: nat, b: nat, bits: nat): nat {
    if bits == 0 then a else 2 * Xor(a / 2, b / 2, bits - 1) + if a % 2 == b % 2 then 0 else 1
  }

  function FnvStep(sum: nat, c: char): (h: nat)
    ensures h < MODULUS
  {
    (Xor(sum, ByteOf(c), 8) * 16777619) % MODULUS
  }

  /** FNV-1a over 32 bits; tags are ASCII, so a character is a byte. */
  function Fnv32a(tag: string): (h: nat)
    ensures h < MODULUS
  {
    if tag == [] then 2166136261
    else FnvStep(Fnv32a(tag[..|tag| - 1]), tag[|tag| - 1])
  }

  lemma {:induction false} XorInjective(a: nat, b: nat, c: nat, bits: nat)
    requires Xor(a, b, bits) == Xor(a, c, bits) && b < Backoff.Pow2(bits) && c < Backoff.Pow2(bits)
    ensures b == c
  {
    if bits > 0 {
      XorInjective(a / 2, b / 2, c / 2, bits - 1);
    }
  }

  lemma {:induction false} XorNear(a: nat, b: nat, c: nat, bits: nat)
    ensures Xor(a, b, bits) < Xor(a, c, bits) + Backoff.Pow2(bits)
  {
    if bits > 0 {
      XorNear(a / 2, b / 2, c / 2, bits - 1);
    }
  }

  /** Multiplying by an odd constant loses nothing: 899433627 is its inverse. */
  lemma ProductInjective(x: nat, y: nat)
    requires -256 < x - y < 256
    requires (x * 16777619) % MODULUS == (y * 16777619) % MODULUS
    ensures x == y
  {
    var d, e := x - y, x * 16777619 / MODULUS - y * 16777619 / MODULUS;
    assert d * 16777619 == e * MODULUS;
    assert 16777619 * 899433627 == 1 + 3513497 * MODULUS;
    assert d == MODULUS * (e * 899433627 - 3513497 * d);
  }

  /** After a given text the last byte decides the hash. */
  lemma LastByteDecides(prefix: string, c: char, d: char)
    requires Fnv32a(prefix + [c]) == Fnv32a(prefix + [d])
    ensures c as int % 256 == d as int % 256
  {
    assert (prefix + [c])[..|prefix|] == prefix && (prefix + [d])[..|prefix|] == prefix;
    var sum := Fnv32a(prefix);
    assert Backoff.Pow2(8) == 256;
    XorNear(sum, ByteOf(c), ByteOf(d), 8);
    XorNear(sum, ByteOf(d), ByteOf(c), 8);
    ProductInjective(Xor(sum, ByteOf(c), 8), Xor(sum, ByteOf(d), 8));
    XorInjective(sum, ByteOf(c), ByteOf(d), 8);
  }

  type Byte = b: int | 0 <= b < 256

  function HexByte(b: Byte): (s: string)
    ensures |s| == 2
  {
    [DigitChar(b / 16), DigitChar(b % 16)]
  }

  /** hex.EncodeToString. */
  function EncodeHex(bytes: seq<Byte>): (s: string)
    ensures |s| == 2 * |bytes|
  {
    if bytes == [] then [] else HexByte(bytes[0]) + EncodeHex(bytes[1..])
  }

  /** Four random bytes, or the failure to draw them. */
  type Randomness = r: Option<seq<Byte>> | r.Some? ==> |r.value| == 4 witness None

  /** The name for a tag with the given hash; None is the panic of slicing a hash of under eight digits. */
  function JobNameFor(bundle: string, sum: nat, random: Randomness): Option<string> {
    var digits := Digits(sum, Sixteen);
    if |digits| < 8 then None
    else
      var tagHash := digits[..8];
      if random.None? then Some(bundle + "-" + tagHash)
      else
        var uuid := EncodeHex(random.value);
        var fullName := bundle + "-" + tagHash + "-" + uuid;
        var maxBundleLen := MAX_NAME - |tagHash| - |uuid| - 2;
        if |fullName| <= MAX_NAME then Some(fullName)
        else if maxBundleLen > 0 then Some(bundle[..maxBundleLen] + "-" + tagHash + "-" + uuid)
        else Some(tagHash + "-" + uuid)
  }

  lemma Power16Values()
    ensures Power16(7) == 0x1000_0000 && Power16(8) == 0x1_0000_0000
  {
    assert Power16(4) == 0x1_0000;
  }

  /** Naming panics exactly on the tags whose hash has a zero leading digit. */
  lemma NamingPanicsExactly(bundle: string, sum: nat, random: Randomness)
    ensures JobNameFor(bundle, sum, random).None? <==> sum < 0x1000_0000
  {
    HexLength(sum, 7);
    Power16Values();
  }

  /** Of every 32-bit hash that does not panic, the name carries all eight digits. */
  lemma HashHasEightDigits(sum: nat)
    requires 0x1000_0000 <= sum < 0x1_0000_0000
    ensures |Digits(sum, Sixteen)| == 8
  {
    HexLength(sum, 7);
    HexLength(sum, 8);
    Power16Values();
  }

  function Kept(bundle: string): string {
    if |bundle| <= 235 then bundle else bundle[..235]
  }

  /** The name is a prefix of the bundle's, the hash and the random part, never longer than allowed. */
  lemma NameHasThreeParts(bundle: string, sum: nat, bytes: seq<Byte>)
    requires 0x1000_0000 <= sum < 0x1_0000_0000 && |bytes| == 4
    ensures JobNameFor(bundle, sum, Some(bytes))
            == Some(Kept(bundle) + "-" + Digits(sum, Sixteen) + "-" + EncodeHex(bytes))
  {
    HashHasEightDigits(sum);
    assert Digits(sum, Sixteen)[..8] == Digits(sum, Sixteen);
  }

  /** Without randomness the name ends after the hash. */
  lemma NameWithoutRandomness(bundle: string, sum: nat)
    requires 0x1000_0000 <= sum < 0x1_0000_0000
    ensures JobNameFor(bundle, sum, None) == Some(bundle + "-" + Digits(sum, Sixteen))
  {
    HashHasEightDigits(sum);
    assert Digits(sum, Sixteen)[..8] == Digits(sum, Sixteen);
  }

  lemma HexByteReadsBack(b: Byte)
    ensures IsDigit(HexByte(b)[0]) && IsDigit(HexByte(b)[1]) && ValueOf(HexByte(b), Sixteen) == b
  {
    var s := HexByte(b);
    assert s[..1] == [DigitChar(b / 16)] && s[..1][..0] == [];
    assert DigitValue(DigitChar(b / 16)) == b / 16 && DigitValue(DigitChar(b % 16)) == b % 16;
    assert ValueOf(s[..1], Sixteen) == b / 16;
  }

  /** The digits of each byte are in its place, and read as a hexadecimal number give the byte. */
  lemma {:induction false} HexReadsBack(bytes: seq<Byte>, i: nat)
    requires i < |bytes|
    ensures var pair := EncodeHex(bytes)[2 * i..2 * i + 2];
            IsDigit(pair[0]) && IsDigit(pair[1]) && ValueOf(pair, Sixteen) == bytes[i]
  {
    if i == 0 {
      assert EncodeHex(bytes)[0..2] == HexByte(bytes[0]);
      HexByteReadsBack(bytes[0]);
    } else {
      HexReadsBack(bytes[1..], i - 1);
      assert EncodeHex(bytes)[2 * i..2 * i + 2] == EncodeHex(bytes[1..])[2 * (i - 1)..2 * (i - 1) + 2];
    }
  }

  lemma {:induction false} EncodeHexInjective(a: seq<Byte>, b: seq<Byte>)
    requires |a| == |b| && EncodeHex(a) == EncodeHex(b)
    ensures a == b
  {
    if a != [] {
      var s, t := EncodeHex(a), EncodeHex(b);
      assert s[..2] == HexByte(a[0]) && t[..2] == HexByte(b[0]);
      assert s[2..] == EncodeHex(a[1..]) && t[2..] == EncodeHex(b[1..]);
      assert HexByte(a[0])[0] == HexByte(b[0])[0] && HexByte(a[0])[1] == HexByte(b[0])[1];
      DigitCharInjective(a[0] / 16, b[0] / 16);
      DigitCharInjective(a[0] % 16, b[0] % 16);
      EncodeHexInjective(a[1..], b[1..]);
    }
  }

  lemma DigitCharInjective(d: nat, e: nat)
    requires d < 16 && e < 16 && DigitChar(d) == DigitChar(e)
    ensures d == e
  {
    assert DigitValue(DigitChar(d)) == d && DigitValue(DigitChar(e)) == e;
  }

  /** Positions from the end read the parts back, for bundle names of any length and with any hyphens. */
  lemma NameParsesBack(bundle: string, sum: nat, bytes: seq<Byte>)
    requires 0x1000_0000 <= sum < 0x1_0000_0000 && |bytes| == 4
    ensures JobNameFor(bundle, sum, Some(bytes)).Some?
    ensures var name := JobNameFor(bundle, sum, Some(bytes)).value; var n := |name|;
            && 18 <= n <= 253
            && name[n - 8..] == EncodeHex(bytes)
            && name[n - 9] == '-' && name[n - 18] == '-'
            && name[n - 17..n - 9] == Digits(sum, Sixteen)
            && name[..n - 18] == Kept(bundle) == bundle[..if |bundle| <= 235 then |bundle| else 235]
  {
    NameHasThreeParts(bundle, sum, bytes);
    HashHasEightDigits(sum);
    var kept, hash, uuid := Kept(bundle), Digits(sum, Sixteen), EncodeHex(bytes);
    var name := kept + "-" + hash + "-" + uuid;
    var n := |kept| + 18;
    assert |name| == n;
    assert name[n - 8..] == uuid;
    assert name[n - 17..n - 9] == hash;
    assert name[..n - 18] == kept;
  }

  /** Two equal names come from the same hash, the same random bytes and the same kept prefix. */
  lemma NameInjective(bundle: string, sum: nat, bytes: seq<Byte>, bundle': string, sum': nat, bytes': seq<Byte>)
    requires 0x1000_0000 <= sum < 0x1_0000_0000 && |bytes| == 4
    requires 0x1000_0000 <= sum' < 0x1_0000_0000 && |bytes'| == 4
    requires JobNameFor(bundle, sum, Some(bytes)) == JobNameFor(bundle', sum', Some(bytes'))
    ensures sum == sum' && bytes == bytes' && Kept(bundle) == Kept(bundle')
  {
    NameParsesBack(bundle, sum, bytes);
    NameParsesBack(bundle', sum', bytes');
    DigitsInjective(sum, sum', Sixteen);
    EncodeHexInjective(bytes, bytes');
  }

  /** The two exclusive ors, built up two binary digits at a time. */
  lemma XorsOfF8()
    ensures Xor(2166136261, 102, 8) == 2166136227
    ensures Xor(3809224601, 56, 8) == 3809224609
  {
    assert Xor(33845879, 1, 2) == 33845878;
    assert Xor(135383516, 6, 4) == 135383514;
    assert Xor(541534065, 25, 6) == 541534056;
    assert Xor(59519134, 0, 2) == 59519134;
    assert Xor(238076537, 3, 4) == 238076538;
    assert Xor(952306150, 14, 6) == 952306152;
  }

  /** The hash of the tag "f8" has a zero leading digit. */
  lemma HashOfF8()
    ensures Fnv32a("f8") == 0x0d226273
  {
    hide Xor;
    XorsOfF8();
    assert "f8"[..1] == "f" && "f"[..0] == "";
    assert Fnv32a("f") == FnvStep(2166136261, 'f') == 3809224601;
  }

  /** A tag of the OCI grammar whose Job can never be named. */
  lemma UnnameableTag(bundle: string, random: Randomness)
    ensures JobNameFor(bundle, Fnv32a("f8"), random).None?
  {
    hide Fnv32a, JobNameFor;
    HashOfF8();
    NamingPanicsExactly(bundle, Fnv32a("f8"), random);
  }

  // The Job.

  /** How a type is known to the scheme; the API version is printed from group and version. */
  datatype Kind = Kind(apiVersion: string, kind: string)

  datatype Scheme = Unregistered | Kinds(kinds: seq<Kind>)

  datatype OwnerReference = OwnerReference(kind: Kind, name: string, uid: string)

  datatype Job = Job(
    name: string,
    namespace: string,
    labels: map<string, string>,
    backoffLimit: nat,
    ttlSeconds: Int32,
    podLabels: map<string, string>,
    restartPolicy: string,
    serviceAccountName: string,
    image: string,
    containers: seq<seq<string>>,
    requests: Resources,
    limits: Resources,
    owners: seq<OwnerReference>)

  datatype BuildError = NoBundle | NoResolver | Unresolved(cause: ResolveError) | NoScheme | UnknownType | NoKind

  datatype BuildResult = Built(job: Job) | Refused(error: BuildError) | Panicked

  const IMAGE: string := "ghcr.io/werf/werf:latest"

  /** The resource limits, with a default for each that is not given. */
  function Limits(spec: Spec): Resources {
    var given := if spec.resourceLimits.Some? then spec.resourceLimits.value else Resources("", "");
    Resources(if given.cpu != "" then given.cpu else "1", if given.memory != "" then given.memory else "1Gi")
  }

  /** The value of x as a signed 32-bit integer. */
  function Wrap32(x: int): (w: Int32)
    ensures -0x8000_0000 <= x < 0x8000_0000 ==> w == x
  {
    var m := x % 0x1_0000_0000;
    if m < 0x8000_0000 then m else m - 0x1_0000_0000
  }

  const SECONDS_A_DAY: int := 86400

  function RetentionDays(spec: Spec): (days: int)
    ensures 0 < days < 0x8000_0000
  {
    if spec.logRetentionDays.Some? && spec.logRetentionDays.value > 0 then spec.logRetentionDays.value else 7
  }

  function RetentionSeconds(spec: Spec): Int32 {
    Wrap32(Wrap32(Wrap32(RetentionDays(spec) * 24) * 60) * 60)
  }

  lemma WrapShifts(x: int) returns (c: int)
    ensures x == Wrap32(x) + 0x1_0000_0000 * c
  {
    c := if x % 0x1_0000_0000 < 0x8000_0000 then x / 0x1_0000_0000 else x / 0x1_0000_0000 + 1;
  }

  lemma WrappedProduct(x: int, w: int, c: int, k: int)
    requires x == w + 0x1_0000_0000 * c
    ensures x * k == w * k + 0x1_0000_0000 * (c * k)
  {
  }

  lemma Wrap32Multiple(x: int, k: int)
    ensures Wrap32(Wrap32(x) * k) == Wrap32(x * k)
  {
    var c := WrapShifts(x);
    WrappedProduct(x, Wrap32(x), c, k);
    ShiftedWraps(Wrap32(x) * k, c * k);
  }

  lemma ShiftedWraps(x: int, c: int)
    ensures Wrap32(x + 0x1_0000_0000 * c) == Wrap32(x)
  {
    assert (x + 0x1_0000_0000 * c) % 0x1_0000_0000 == x % 0x1_0000_0000;
  }

  /** Jobs are kept for the days asked for if and only if these are at most 24855, about 68 years. */
  lemma RetentionIsKeptExactly(spec: Spec)
    ensures RetentionSeconds(spec) == RetentionDays(spec) * SECONDS_A_DAY <==> RetentionDays(spec) <= 24855
    ensures RetentionDays(spec) == 24856 ==> RetentionSeconds(spec) < 0
  {
    hide Wrap32;
    var days := RetentionDays(spec);
    Wrap32Multiple(days * 24, 60);
    Wrap32Multiple(days * 24 * 60, 60);
    assert RetentionSeconds(spec) == Wrap32(days * SECONDS_A_DAY);
    if days == 24856 {
      ShiftedWraps(24856 * SECONDS_A_DAY - 0x1_0000_0000, 1);
    }
  }

  /** The same in days and seconds, the default being a week. */
  lemma RetentionIs(spec: Spec)
    ensures spec.logRetentionDays.None? || spec.logRetentionDays.value <= 0 ==> RetentionSeconds(spec) == 604_800
    ensures spec.logRetentionDays.Some? && 0 < spec.logRetentionDays.value <= 24855 ==>
              RetentionSeconds(spec) == spec.logRetentionDays.value * 86_400
  {
    hide RetentionSeconds;
    RetentionIsKeptExactly(spec);
  }

  function Reference(b: Bundle, tag: string): string {
    b.spec.registryURL + ":" + tag
  }

  function PrefixArgs(b: Bundle, tag: string): seq<string> {
    ["converge", "--log-color=false", Reference(b, tag)]
  }

  function Labels(b: Bundle, tag: string): map<string, string> {
    map["app.kubernetes.io/name" := "werf-operator",
        "app.kubernetes.io/instance" := b.name,
        "app.kubernetes.io/managed-by" := "werf-operator",
        "werf.io/bundle" := b.name,
        "werf.io/tag" := tag]
  }

  lemma ArgsAre(b: Bundle, tag: string)
    ensures PrefixArgs(b, tag) == ["converge", "--log-color=false", b.spec.registryURL + ":" + tag]
  {
  }

  /** The last colon of the reference separates registry and tag, for tags without colons. */
  lemma ReferenceReadsBack(b: Bundle, tag: string)
    requires ':' !in tag
    ensures CutLast(PrefixArgs(b, tag)[2], ':') == Some((b.spec.registryURL, tag))
  {
    CutLastAtLast(b.spec.registryURL, tag, ':');
  }

  /** Jobs of different tags, or of different registries, have different arguments, whatever the values. */
  lemma ArgsTellTags(b: Bundle, tag: string, b': Bundle, tag': string, flags: seq<string>, flags': seq<string>)
    requires ':' !in tag && ':' !in tag'
    requires PrefixArgs(b, tag) + flags == PrefixArgs(b', tag') + flags'
    ensures tag == tag' && b.spec.registryURL == b'.spec.registryURL && flags == flags'
  {
    var args := PrefixArgs(b, tag) + flags;
    assert args[2] == PrefixArgs(b, tag)[2] == PrefixArgs(b', tag')[2];
    ReferenceReadsBack(b, tag);
    ReferenceReadsBack(b', tag');
    assert args[3..] == flags && args[3..] == flags';
  }

  lemma NoValuesNoFlags(args: seq<string>)
    ensures SortedKeys([], map[]) && args + Flags([], map[]) == args
  {
  }

  class Builder {
    var werf: Option<Bundle>
    var scheme: Option<Scheme>
    var valuesResolver: Option<Store>
    /** Which texts resource.ParseQuantity accepts. */
    const isQuantity: string -> bool

    constructor (bundle: Option<Bundle>, isQuantity: string -> bool)
      ensures werf == bundle && scheme == None && valuesResolver == None && this.isQuantity == isQuantity
    {
      werf, scheme, valuesResolver := bundle, None, None;
      this.isQuantity := isQuantity;
    }

    method WithScheme(scheme: Scheme)
      modifies this`scheme
      ensures this.scheme == Some(scheme)
    {
      this.scheme := Some(scheme);
    }

    method WithValuesResolver(store: Store)
      modifies this`valuesResolver
      ensures valuesResolver == Some(store)
    {
      valuesResolver := Some(store);
    }

    /** The outcomes of the bundle's sources in the resolver's cluster. */
    ghost function Sources(): seq<SourceOutcome>
      reads this
      requires werf.Some? && valuesResolver.Some?
    {
      var b := werf.value;
      Outcomes(valuesResolver.value, b.spec.valuesFrom, b.namespace, GetTargetNamespace(b.spec, b.namespace))
    }

    ghost predicate Nameable(tag: string) {
      Fnv32a(tag) >= 0x1000_0000
    }

    ghost predicate ValuesResolve()
      reads this
      requires werf.Some?
    {
      werf.value.spec.valuesFrom != [] ==>
        valuesResolver.Some? && forall i :: 0 <= i < |Sources()| ==> !Sources()[i].Fails?
    }

    ghost predicate QuantitiesParse()
      reads this
      requires werf.Some?
    {
      var given := werf.value.spec.resourceLimits;
      && isQuantity(if given.Some? && given.value.cpu != "" then given.value.cpu else "1")
      && isQuantity(if given.Some? && given.value.memory != "" then given.value.memory else "1Gi")
    }

    ghost predicate OwnerIsKnown()
      reads this
    {
      scheme.Some? && scheme.value.Kinds? && scheme.value.kinds != []
    }

    /** The flags of the resolved values after the fixed arguments. */
    method AppendValues(args: seq<string>, targetNamespace: string)
      returns (result: Result<seq<string>, BuildError>, ghost values: map<string, string>, ghost keys: seq<string>)
      requires werf.Some? && targetNamespace == GetTargetNamespace(werf.value.spec, werf.value.namespace)
      ensures result.Success? <==> ValuesResolve()
      ensures result == Failure(NoResolver) <==> werf.value.spec.valuesFrom != [] && valuesResolver.None?
      ensures result.Failure? ==> result.error.NoResolver? || result.error.Unresolved?
      ensures result.Success? ==>
                && SortedKeys(keys, values) && result.value == args + Flags(keys, values)
                && (if werf.value.spec.valuesFrom == [] then values == map[] else Resolved(Sources(), values))
    {
      hide Resolved, Sorted, SourceIn;
      var b := werf.value;
      values, keys := map[], [];
      if |b.spec.valuesFrom| == 0 {
        NoValuesNoFlags(args);
        return Success(args), values, keys;
      }
      if valuesResolver.None? {
        return Failure(NoResolver), values, keys;
      }
      var resolved;
      ghost var rs;
      resolved, rs := ResolveValues(valuesResolver.value, b.spec.valuesFrom, b.namespace, targetNamespace);
      if resolved.Failure? {
        ghost var i :| 0 <= i < |b.spec.valuesFrom|
                       && SourceIn(valuesResolver.value, b.spec.valuesFrom[i], b.namespace, targetNamespace).Fails?;
        assert Sources()[i].Fails?;
        return Failure(Unresolved(resolved.error)), values, keys;
      }
      values := resolved.value;
      var setFlags;
      setFlags, keys := GenerateSetFlags(resolved.value);
      return Success(args + setFlags), values, keys;
    }

    ghost predicate HasLimits(job: Job, given: Option<Resources>) {
      && job.limits.cpu == (if given.Some? && given.value.cpu != "" then given.value.cpu else "1")
      && job.limits.memory == (if given.Some? && given.value.memory != "" then given.value.memory else "1Gi")
    }

    /** Every field of the Job for the tag, given the resolved values and their sorted keys. */
    ghost predicate Describes(job: Job, tag: string, random: Randomness, values: map<string, string>, keys: seq<string>)
      reads this
    {
      && werf.Some? && OwnerIsKnown() && ValuesResolve()
      && var b := werf.value;
         && job.namespace == GetTargetNamespace(b.spec, b.namespace)
         && Some(job.name) == JobNameFor(b.name, Fnv32a(tag), random)
         && job.labels == job.podLabels
         == map["app.kubernetes.io/name" := "werf-operator", "app.kubernetes.io/instance" := b.name,
                "app.kubernetes.io/managed-by" := "werf-operator", "werf.io/bundle" := b.name, "werf.io/tag" := tag]
         && job.serviceAccountName == b.spec.serviceAccountName
         && job.backoffLimit == 0 && job.restartPolicy == "Never" && job.image == "ghcr.io/werf/werf:latest"
         && job.ttlSeconds == RetentionSeconds(b.spec)
         && (b.spec.logRetentionDays.None? || b.spec.logRetentionDays.value <= 0 ==> job.ttlSeconds == 604_800)
         && (b.spec.logRetentionDays.Some? && 0 < b.spec.logRetentionDays.value <= 24855 ==>
               job.ttlSeconds == b.spec.logRetentionDays.value * 86_400)
         && job.requests == job.limits
         && HasLimits(job, b.spec.resourceLimits)
         && job.owners == [OwnerReference(scheme.value.kinds[0], b.name, b.uid)]
         && SortedKeys(keys, values)
         && job.containers
            == [["converge", "--log-color=false", b.spec.registryURL + ":" + tag] + Flags(keys, values)]
         && (if b.spec.valuesFrom == [] then values == map[] else Resolved(Sources(), values))
    }

    /** `values` and `keys` are the resolved map and its sorted keys. */
    method Build(tag: string, random: Randomness)
      returns (result: BuildResult, ghost values: map<string, string>, ghost keys: seq<string>)
      ensures result == Refused(NoBundle) <==> werf.None?
      ensures result.Panicked? <==> werf.Some? && (!Nameable(tag) || (ValuesResolve() && !QuantitiesParse()))
      ensures result.Built? <==> werf.Some? && Nameable(tag) && ValuesResolve() && QuantitiesParse() && OwnerIsKnown()
      ensures result.Refused? && (result.error.NoResolver? || result.error.Unresolved?)
              <==> werf.Some? && Nameable(tag) && !ValuesResolve()
      ensures result == Refused(NoResolver)
              <==> werf.Some? && Nameable(tag) && werf.value.spec.valuesFrom != [] && valuesResolver.None?
      ensures result.Refused? && (result.error.NoScheme? || result.error.UnknownType? || result.error.NoKind?)
              <==> werf.Some? && Nameable(tag) && ValuesResolve() && QuantitiesParse() && !OwnerIsKnown()
      ensures result == Refused(NoScheme) ==> scheme == None
      ensures result == Refused(UnknownType) ==> scheme == Some(Unregistered)
      ensures result == Refused(NoKind) ==> scheme == Some(Kinds([]))
      ensures result.Built? ==> Describes(result.job, tag, random, values, keys)
    {
      hide JobNameFor, Fnv32a, Resolved, RetentionSeconds, PrefixArgs, Flags, Sorted, ValuesResolve;
      values, keys := map[], [];
      if werf.None? {
        return Refused(NoBundle), values, keys;
      }
      var b := werf.value;
      var targetNamespace := GetTargetNamespace(b.spec, b.namespace);
      NamingPanicsExactly(b.name, Fnv32a(tag), random);
      var jobName := JobNameFor(b.name, Fnv32a(tag), random);
      if jobName.None? {
        return Panicked, values, keys;
      }
      var args;
      args, values, keys := AppendValues(PrefixArgs(b, tag), targetNamespace);
      if args.Failure? {
        return Refused(args.error), values, keys;
      }
      RetentionIs(b.spec);
      ArgsAre(b, tag);
      var ttlSeconds := RetentionSeconds(b.spec);
      var limits := Limits(b.spec);
      if !isQuantity(limits.cpu) || !isQuantity(limits.memory) {
        return Panicked, values, keys;
      }
      if scheme.None? {
        return Refused(NoScheme), values, keys;
      }
      if scheme.value.Unregistered? {
        return Refused(UnknownType), values, keys;
      }
      if |scheme.value.kinds| == 0 {
        return Refused(NoKind), values, keys;
      }
      var owner := OwnerReference(scheme.value.kinds[0], b.name, b.uid);
      var job := Job(jobName.value, targetNamespace, Labels(b, tag), 0, ttlSeconds, Labels(b, tag), "Never",
                     b.spec.serviceAccountName, IMAGE, [args.value], limits, limits, [owner]);
      return Built(job), values, keys;
    }
  }

  /** None of the fixed arguments can pass for the flag. */
  lemma PrefixHasNoFlag(b: Bundle, tag: string)
    ensures SET !in PrefixArgs(b, tag)
  {
    var reference := Reference(b, tag);
    assert reference[|b.spec.registryURL|] == ':';
    assert ':' in reference;
    assert forall i :: 0 <= i < |SET| ==> SET[i] != ':';
    assert "converge"[0] != SET[0];
    assert |"--log-color=false"| != |SET|;
  }

  /**
   * End to end: reading the flags of a built Job and undoing the escapes gives back the resolved
   * values, exactly when none of their keys contains '='.
   */
  lemma ArgsCarryTheValuesExactly(b: Bundle, tag: string, keys: seq<string>, values: map<string, string>)
    requires SortedKeys(keys, values)
    ensures UnescapedValues(Extract(PrefixArgs(b, tag) + Flags(keys, values), map[])) == values
            <==> (forall key :: key in values ==> '=' !in key)
  {
    PrefixHasNoFlag(b, tag);
    ExtractUndoesGenerateExactly(PrefixArgs(b, tag), keys, values);
  }

  /** The whole way: the values a Job is built from, and what is read back from the Job. */
  method BuildAndExtract(builder: Builder, tag: string, random: Randomness)
    returns (result: BuildResult, flags: map<string, string>, ghost values: map<string, string>)
    ensures result.Built? ==>
              && builder.werf.Some? && builder.ValuesResolve()
              && (if builder.werf.value.spec.valuesFrom == [] then values == map[] else Resolved(builder.Sources(), values))
    ensures result.Built? ==>
              (UnescapedValues(flags) == values <==> (forall key :: key in values ==> '=' !in key))
    ensures if result.Built? then forall key :: key in flags ==> '=' !in key else flags == map[]
  {
    hide Resolved, Extract, Flags, UnescapedValues, PrefixArgs, Sorted;
    ghost var keys;
    result, values, keys := builder.Build(tag, random);
    if !result.Built? {
      return result, map[], values;
    }
    flags := ExtractSetFlags(Some(result.job.containers));
    ExtractedKeysAreCut(result.job.containers[0], map[]);
    ArgsAre(builder.werf.value, tag);
    ArgsCarryTheValuesExactly(builder.werf.value, tag, keys, values);
  }
}
