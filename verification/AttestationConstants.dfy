/** Timeliness rules and weights of the attestation flags. */
module AttestationConstants {

  const TIMELY_SOURCE_WEIGHT := 14
  const TIMELY_TARGET_WEIGHT := 26
  const TIMELY_HEAD_WEIGHT := 14

  datatype Flags = Flags(source: bool, target: bool, head: bool)

  predicate TimelySource(incDelay: int, validSource: bool) {
    validSource && incDelay <= 5
  }

  predicate TimelyTarget(incDelay: int, validSource: bool, validTarget: bool) {
    validSource && validTarget && incDelay <= 32
  }

  predicate TimelyTargetDeneb(validSource: bool, validTarget: bool) {
    validSource && validTarget
  }

  predicate TimelyHead(incDelay: int, validSource: bool, validTarget: bool, validHead: bool) {
    validSource && validTarget && validHead && incDelay == 1
  }

  function GetAttestationFlags(incDelay: int, validSource: bool, validTarget: bool, validHead: bool, isDeneb: bool): Flags {
    Flags(TimelySource(incDelay, validSource),
          if isDeneb then TimelyTargetDeneb(validSource, validTarget) else TimelyTarget(incDelay, validSource, validTarget),
          TimelyHead(incDelay, validSource, validTarget, validHead))
  }

  /** One of the three participation flags, with its weight. */
  datatype Flag = SourceFlag | TargetFlag | HeadFlag
  {
    function Weight(): nat {
      match this
      case SourceFlag => TIMELY_SOURCE_WEIGHT
      case TargetFlag => TIMELY_TARGET_WEIGHT
      case HeadFlag => TIMELY_HEAD_WEIGHT
    }

    predicate In(flags: Flags) {
      match this
      case SourceFlag => flags.source
      case TargetFlag => flags.target
      case HeadFlag => flags.head
    }
  }

  /** `get_attestation_participation_flag_indices` of the Altair beacon-chain specification, with the
      target rule of Deneb (EIP-7045). `rootSlots` is `integer_squareroot(SLOTS_PER_EPOCH)`. */
  function SpecFlagIndices(incDelay: int, sourceMatches: bool, targetRootMatches: bool, headRootMatches: bool,
                           isDeneb: bool, rootSlots: nat): set<Flag>
  {
    var isMatchingSource := sourceMatches;
    var isMatchingTarget := isMatchingSource && targetRootMatches;
    var isMatchingHead := isMatchingTarget && headRootMatches;
    (if isMatchingSource && incDelay <= rootSlots then {SourceFlag} else {})
    + (if isMatchingTarget && (isDeneb || incDelay <= 32) then {TargetFlag} else {})
    + (if isMatchingHead && incDelay == 1 then {HeadFlag} else {})
  }

  lemma FlagsMatchSpec(incDelay: int, vs: bool, vt: bool, vh: bool, isDeneb: bool, rootSlots: nat, f: Flag)
    requires rootSlots * rootSlots <= 32 < (rootSlots + 1) * (rootSlots + 1)
    ensures f.In(GetAttestationFlags(incDelay, vs, vt, vh, isDeneb))
       <==> f in SpecFlagIndices(incDelay, vs, vt, vh, isDeneb, rootSlots)
  {
    assert rootSlots < 6 by {
      assert rootSlots >= 6 ==> rootSlots * rootSlots >= 6 * rootSlots;
    }
    assert rootSlots == 5;
  }

  /** An attestation that earns the head flag earns the other two as well. */
  lemma HeadFlagImpliesOthers(incDelay: int, vs: bool, vt: bool, vh: bool, isDeneb: bool)
    ensures var f := GetAttestationFlags(incDelay, vs, vt, vh, isDeneb); f.head ==> f.source && f.target
  {
  }
}
