/**
 * Volume resolution: which pre-created volume a source disk migrates into.
 * The current naming scheme is tried first; the legacy one only when the
 * current one finds nothing; and a lookup succeeds only on exactly one match.
 */
module Volumes {
  import opened Wrappers
  import opened Cloud
  import opened Inventory
  import opened Results

  function DigitChar(d: nat): char
    requires d < 10
  {
    "0123456789"[d]
  }

  /** The decimal digits of `n`, most significant first. */
  function NatToDecimal(n: nat): string
    decreases n
  {
    if n < 10 then [DigitChar(n)] else NatToDecimal(n / 10) + [DigitChar(n % 10)]
  }

  /** Go's `strconv.Itoa`: the decimal text of an integer. */
  function Itoa(n: int): string {
    if n < 0 then "-" + NatToDecimal(-n) else NatToDecimal(n)
  }

  predicate AllDigits(s: string) {
    forall i :: 0 <= i < |s| ==> '0' <= s[i] <= '9'
  }

  /** The value of a string of decimal digits. */
  function DecimalValue(s: string): nat
    requires AllDigits(s)
    decreases |s|
  {
    if s == [] then 0 else DecimalValue(s[..|s| - 1]) * 10 + (s[|s| - 1] as int - '0' as int)
  }

  /** The integer a decimal text stands for, if it is one: `Itoa` read back. */
  function ParseDecimal(s: string): Option<int> {
    if s != [] && s[0] == '-' && AllDigits(s[1..]) && |s| > 1 then Some(-(DecimalValue(s[1..]) as int))
    else if s != [] && AllDigits(s) then Some(DecimalValue(s))
    else None
  }

  /** The decimal text of a natural number stands for it. */
  lemma {:induction false} NatToDecimalRoundTrip(n: nat)
    ensures AllDigits(NatToDecimal(n)) && DecimalValue(NatToDecimal(n)) == n
    decreases n
  {
    var s := NatToDecimal(n);
    if n >= 10 {
      var prefix := NatToDecimal(n / 10);
      NatToDecimalRoundTrip(n / 10);
      assert s == prefix + [DigitChar(n % 10)];
      assert s[..|s| - 1] == prefix && s[|s| - 1] == DigitChar(n % 10);
      assert forall i :: 0 <= i < |prefix| ==> s[i] == prefix[i];
    } else {
      assert s == [DigitChar(n)];
    }
  }

  /** `Itoa` loses nothing: reading its text back gives the integer, so two disks with different
      device keys never carry the same disk tag. */
  lemma ItoaRoundTrip(n: int)
    ensures ParseDecimal(Itoa(n)) == Some(n)
  {
    if n < 0 {
      SignedRoundTrip(-n);
      assert Itoa(n) == "-" + NatToDecimal(-n);
    } else {
      UnsignedRoundTrip(n);
      assert Itoa(n) == NatToDecimal(n);
    }
  }

  /** The decimal text of `m` reads back to `m`. */
  lemma UnsignedRoundTrip(m: nat)
    ensures ParseDecimal(NatToDecimal(m)) == Some(m)
  {
    var s := NatToDecimal(m);
    NatToDecimalRoundTrip(m);
    assert s[0] != '-';
  }

  /** A minus sign followed by the decimal text of `m` reads back to `-m`. */
  lemma SignedRoundTrip(m: nat)
    requires 0 < m
    ensures ParseDecimal("-" + NatToDecimal(m)) == Some(-(m as int))
  {
    var digits := NatToDecimal(m);
    var s := "-" + digits;
    NatToDecimalRoundTrip(m);
    assert s[0] == '-' && s[1..] == digits && |s| > 1;
  }

  /** The ownership tags the migration puts on the volumes it creates. */
  function OwnerMetadata(vmRef: string, disk: string): map<string, string> {
    map["migrate_kit" := "true", "vm" := vmRef, "disk" := disk]
  }

  /** The listing of the current scheme; `unsafeVolumeByName` drops the ownership tags. */
  function CurrentVolumeQuery(naming: VolumeNaming, vm: VirtualMachine, disk: VirtualDisk, unsafeVolumeByName: bool): VolumeListOpts {
    VolumeListOpts(
      naming.current(vm, disk),
      if unsafeVolumeByName then None else Some(OwnerMetadata(vm.ref, Itoa(disk.key as int))))
  }

  /** The listing of the legacy scheme: always tagged, keyed by the disk object identifier. */
  function LegacyVolumeQuery(naming: VolumeNaming, vm: VirtualMachine, disk: VirtualDisk): VolumeListOpts {
    VolumeListOpts(naming.legacy(vm, disk), Some(OwnerMetadata(vm.ref, disk.diskObjectId)))
  }

  /** The current listing filters by the current scheme's name, and carries the ownership tags
      exactly when the unsafe flag is off: the migration's mark, the VM's reference, and a disk
      tag that reads back to the device key. */
  lemma CurrentQueryFilters(naming: VolumeNaming, vm: VirtualMachine, disk: VirtualDisk, unsafeVolumeByName: bool)
    ensures var q := CurrentVolumeQuery(naming, vm, disk, unsafeVolumeByName);
            && q.name == naming.current(vm, disk)
            && (q.metadata.None? <==> unsafeVolumeByName)
            && (q.metadata.Some? ==>
                  && q.metadata.value.Keys == {"migrate_kit", "vm", "disk"}
                  && q.metadata.value["migrate_kit"] == "true" && q.metadata.value["vm"] == vm.ref
                  && ParseDecimal(q.metadata.value["disk"]) == Some(disk.key as int))
  {
    ItoaRoundTrip(disk.key as int);
  }

  /** The legacy listing filters by the legacy scheme's name and is always tagged, with the disk
      object identifier as the disk tag. */
  lemma LegacyQueryFilters(naming: VolumeNaming, vm: VirtualMachine, disk: VirtualDisk)
    ensures var q := LegacyVolumeQuery(naming, vm, disk);
            && q.name == naming.legacy(vm, disk) && q.metadata.Some?
            && q.metadata.value.Keys == {"migrate_kit", "vm", "disk"}
            && q.metadata.value["migrate_kit"] == "true" && q.metadata.value["vm"] == vm.ref
            && q.metadata.value["disk"] == disk.diskObjectId
  {
  }

  /** Tagged current-scheme listings of two disks with different device keys never coincide,
      so a volume tagged for one disk is never listed for another. */
  lemma TaggedQueriesSeparateDisks(naming: VolumeNaming, vm: VirtualMachine, d1: VirtualDisk, d2: VirtualDisk)
    requires d1.key != d2.key
    ensures CurrentVolumeQuery(naming, vm, d1, false) != CurrentVolumeQuery(naming, vm, d2, false)
    ensures forall v :: !(VolumeMatches(v, CurrentVolumeQuery(naming, vm, d1, false)) &&
                          VolumeMatches(v, CurrentVolumeQuery(naming, vm, d2, false)))
  {
    CurrentQueryFilters(naming, vm, d1, false);
    CurrentQueryFilters(naming, vm, d2, false);
    var q1 := CurrentVolumeQuery(naming, vm, d1, false);
    var q2 := CurrentVolumeQuery(naming, vm, d2, false);
    forall v | VolumeMatches(v, q1)
      ensures !VolumeMatches(v, q2)
    {
      assert "disk" in q1.metadata.value && "disk" in q2.metadata.value;
      assert v.metadata["disk"] == q1.metadata.value["disk"];
    }
  }

  /** The zero/one/many rule on the final list, and the fetch of the single match. */
  function SelectVolume(faults: set<Request>, volumes: seq<Volume>, found: seq<Volume>): Step<Volume> {
    if |found| == 0 then Step(Err(VolumeNotFound), [])
    else if |found| > 1 then Step(Err(MultipleVolumes), [])
    else Step(Lift(GetVolumeAnswer(faults, volumes, found[0].id)), [VolumeGetRequest(found[0].id)])
  }

  /** No match is "not found", several are ambiguous, and only a single match is fetched: the
      volume returned is the one with its identifier, and the fetch's refusal is returned as it is. */
  lemma SelectVolumeRule(faults: set<Request>, volumes: seq<Volume>, found: seq<Volume>)
    ensures var r := SelectVolume(faults, volumes, found);
            && (r.result == Err(VolumeNotFound) <==> found == [])
            && (r.result == Err(MultipleVolumes) <==> |found| > 1)
            && (r.trace != [] <==> |found| == 1)
            && (|found| == 1 ==>
                  && r.trace == [VolumeGetRequest(found[0].id)]
                  && r.result == Lift(GetVolumeAnswer(faults, volumes, found[0].id)))
            && (r.result.Ok? ==> |found| == 1 && r.result.value.id == found[0].id && r.result.value in volumes)
  {
  }

  /** `GetVolumeForDisk` on a cloud whose volume table is `volumes` and which refuses `faults`. */
  function ResolveVolume(faults: set<Request>, volumes: seq<Volume>, naming: VolumeNaming,
                         vm: VirtualMachine, disk: VirtualDisk, unsafeVolumeByName: bool): (r: Step<Volume>)
    // one to three requests
    ensures 1 <= |r.trace| <= 3
  {
    var current := CurrentVolumeQuery(naming, vm, disk, unsafeVolumeByName);
    match ListVolumesAnswer(faults, volumes, current)
    case Err(e) => Step(Err(Upstream(e)), [VolumeListRequest(current)])
    case Ok(found) =>
      if found == [] then
        var legacy := LegacyVolumeQuery(naming, vm, disk);
        match ListVolumesAnswer(faults, volumes, legacy)
        case Err(e) => Step(Err(Upstream(e)), [VolumeListRequest(current), VolumeListRequest(legacy)])
        case Ok(legacyFound) =>
          var selected := SelectVolume(faults, volumes, legacyFound);
          Step(selected.result, [VolumeListRequest(current), VolumeListRequest(legacy)] + selected.trace)
      else
        var selected := SelectVolume(faults, volumes, found);
        Step(selected.result, [VolumeListRequest(current)] + selected.trace)
  }

  /** The requests of a lookup: the current-scheme listing first, the legacy listing second
      exactly when the current one found nothing, and only volume requests. */
  lemma ResolveVolumeRequests(faults: set<Request>, volumes: seq<Volume>, naming: VolumeNaming,
                              vm: VirtualMachine, disk: VirtualDisk, unsafeVolumeByName: bool)
    ensures
      var r := ResolveVolume(faults, volumes, naming, vm, disk, unsafeVolumeByName);
      && r.trace[0] == VolumeListRequest(CurrentVolumeQuery(naming, vm, disk, unsafeVolumeByName))
      && ((1 < |r.trace| && r.trace[1] == VolumeListRequest(LegacyVolumeQuery(naming, vm, disk)))
          <==> ListVolumesAnswer(faults, volumes, CurrentVolumeQuery(naming, vm, disk, unsafeVolumeByName)) == Ok([]))
      && forall q :: q in r.trace ==> q.VolumeListRequest? || q.VolumeGetRequest?
  {
  }

  /** The exact requests of a lookup: when the current listing finds volumes (or is refused)
      it is the only listing, followed by the fetch of its single match if there is one; only
      when it finds nothing does the legacy listing follow, and then the fetch of its single match. */
  lemma ResolveVolumeTrace(faults: set<Request>, volumes: seq<Volume>, naming: VolumeNaming,
                           vm: VirtualMachine, disk: VirtualDisk, unsafeVolumeByName: bool)
    ensures
      var r := ResolveVolume(faults, volumes, naming, vm, disk, unsafeVolumeByName);
      var current := CurrentVolumeQuery(naming, vm, disk, unsafeVolumeByName);
      var legacy := LegacyVolumeQuery(naming, vm, disk);
      var cur := ListVolumesAnswer(faults, volumes, current);
      var leg := ListVolumesAnswer(faults, volumes, legacy);
      && (cur != Ok([]) ==>
            && r.trace == [VolumeListRequest(current)]
                          + (if cur.Ok? && |cur.value| == 1 then [VolumeGetRequest(cur.value[0].id)] else [])
            && forall k :: 1 <= k < |r.trace| ==> r.trace[k].VolumeGetRequest?)
      && (cur == Ok([]) ==>
            r.trace == [VolumeListRequest(current), VolumeListRequest(legacy)]
                       + (if leg.Ok? && |leg.value| == 1 then [VolumeGetRequest(leg.value[0].id)] else []))
  {
  }

  /** The outcome of a lookup: not found only when both schemes find nothing, ambiguous only when
      the scheme consulted last finds several, found only on a single match; a cloud error is the
      error of the last request made, returned unchanged. */
  lemma ResolveVolumeOutcome(faults: set<Request>, volumes: seq<Volume>, naming: VolumeNaming,
                             vm: VirtualMachine, disk: VirtualDisk, unsafeVolumeByName: bool)
    ensures
      var r := ResolveVolume(faults, volumes, naming, vm, disk, unsafeVolumeByName);
      var cur := ListVolumesAnswer(faults, volumes, CurrentVolumeQuery(naming, vm, disk, unsafeVolumeByName));
      var leg := ListVolumesAnswer(faults, volumes, LegacyVolumeQuery(naming, vm, disk));
      && (r.result.Err? && r.result.error.Upstream? ==> r.result.error.cause.request == r.trace[|r.trace| - 1])
      // a refused listing ends the lookup with its own error
      && (cur.Err? ==> r.result == Err(Upstream(cur.error)) && |r.trace| == 1)
      && (cur == Ok([]) && leg.Err? ==> r.result == Err(Upstream(leg.error)) && |r.trace| == 2)
      // a single match is fetched, and the fetch's answer, or its refusal, is the result
      && (cur.Ok? && |cur.value| == 1 ==> r.result == Lift(GetVolumeAnswer(faults, volumes, cur.value[0].id)))
      && (cur == Ok([]) && leg.Ok? && |leg.value| == 1 ==>
            r.result == Lift(GetVolumeAnswer(faults, volumes, leg.value[0].id)))
      && (r.result == Err(VolumeNotFound) <==> cur == Ok([]) && leg == Ok([]))
      && (r.result == Err(MultipleVolumes) <==>
            (cur.Ok? && |cur.value| > 1) || (cur == Ok([]) && leg.Ok? && |leg.value| > 1))
      && (r.result.Ok? ==>
            && r.result.value in volumes
            && r.trace[|r.trace| - 1] == VolumeGetRequest(r.result.value.id)
            && ((cur.Ok? && |cur.value| == 1 && r.result.value.id == cur.value[0].id)
                || (cur == Ok([]) && leg.Ok? && |leg.value| == 1 && r.result.value.id == leg.value[0].id)))
  {
  }

  predicate UniqueIds(volumes: seq<Volume>) {
    forall i, j :: 0 <= i < j < |volumes| ==> volumes[i].id != volumes[j].id
  }

  lemma {:induction false} FindVolumeUnique(volumes: seq<Volume>, v: Volume)
    requires UniqueIds(volumes) && v in volumes
    ensures FindVolume(volumes, v.id) == Some(v)
  {
    if volumes[0] != v {
      assert v in volumes[1..];
      var k :| 0 <= k < |volumes| && volumes[k] == v;
      assert k != 0;
      assert UniqueIds(volumes[1..]) by {
        forall i, j | 0 <= i < j < |volumes[1..]|
          ensures volumes[1..][i].id != volumes[1..][j].id
        {
          assert volumes[1..][i] == volumes[i + 1] && volumes[1..][j] == volumes[j + 1];
        }
      }
      FindVolumeUnique(volumes[1..], v);
    }
  }

  /** On a cloud that refuses nothing and whose volume identifiers are unique, a disk with
      exactly one matching volume under the scheme that is consulted resolves to that volume. */
  lemma ResolveVolumeFindsSingleMatch(volumes: seq<Volume>, naming: VolumeNaming,
                                      vm: VirtualMachine, disk: VirtualDisk, unsafeVolumeByName: bool, v: Volume)
    requires UniqueIds(volumes)
    requires FilterVolumes(volumes, CurrentVolumeQuery(naming, vm, disk, unsafeVolumeByName)) == [v]
          || (FilterVolumes(volumes, CurrentVolumeQuery(naming, vm, disk, unsafeVolumeByName)) == []
              && FilterVolumes(volumes, LegacyVolumeQuery(naming, vm, disk)) == [v])
    ensures ResolveVolume({}, volumes, naming, vm, disk, unsafeVolumeByName).result == Ok(v)
  {
    assert v in [v];
    FilterVolumesMembers(volumes, CurrentVolumeQuery(naming, vm, disk, unsafeVolumeByName));
    FilterVolumesMembers(volumes, LegacyVolumeQuery(naming, vm, disk));
    FindVolumeUnique(volumes, v);
  }
}
