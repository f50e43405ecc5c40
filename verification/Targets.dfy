/** Target names and their format suffix (internal/buildbatch/build_specs.go). */
module Targets {
  import opened Text

  const NYDUS_V3_TARGET_SUFFIX := "_nydus_v3"

  predicate HasNydusV3Suffix(target: string) {
    HasSuffix(TrimSpace(target), NYDUS_V3_TARGET_SUFFIX)
  }

  function EnsureNydusV3Suffix(target: string): string {
    var trimmed := TrimSpace(target);
    if trimmed == "" || HasNydusV3Suffix(trimmed) then trimmed else trimmed + NYDUS_V3_TARGET_SUFFIX
  }

  function StripNydusV3Suffix(target: string): string {
    TrimSuffix(TrimSpace(target), NYDUS_V3_TARGET_SUFFIX)
  }

  function NormalizeTargetForMode(target: string, oci: bool): string {
    if oci then StripNydusV3Suffix(target) else EnsureNydusV3Suffix(target)
  }

  /** The Nydus name of a target belongs to the target's key. */
  lemma NydusKeyIsTargetKey(target: string)
    ensures StripNydusV3Suffix(EnsureNydusV3Suffix(target)) == StripNydusV3Suffix(target)
  {
    var trimmed := TrimSpace(target);
    TrimSpaceTrims(target);
    TrimmedStays(trimmed);
    var named := trimmed + NYDUS_V3_TARGET_SUFFIX;
    assert named[|named| - 1] == '3';
    if trimmed != "" {
      TrimmedStays(named);
      assert named[..|trimmed|] == trimmed && named[|trimmed|..] == NYDUS_V3_TARGET_SUFFIX;
    }
  }

  /**
   The Nydus name of a target is its bare name with the suffix, so the two formats
   of a target have different names; a blank target has none.
   */
  lemma NydusNameIsBareNameWithSuffix(target: string)
    ensures TrimSpace(target) != "" ==>
              EnsureNydusV3Suffix(target) == StripNydusV3Suffix(target) + "_nydus_v3"
    ensures TrimSpace(target) != "" ==> NormalizeTargetForMode(target, true) != NormalizeTargetForMode(target, false)
    ensures TrimSpace(target) == "" ==>
              NormalizeTargetForMode(target, true) == NormalizeTargetForMode(target, false) == ""
  {
    hide TrimSpace;
    var trimmed := TrimSpace(target);
    TrimSpaceTrims(target);
    TrimmedStays(trimmed);
    var n := |trimmed| - |NYDUS_V3_TARGET_SUFFIX|;
    if HasSuffix(trimmed, NYDUS_V3_TARGET_SUFFIX) {
      assert trimmed == trimmed[..n] + trimmed[n..];
    }
  }

  /** The bare name of a target is what stands, between space, before the suffix, if it is there. */
  lemma BareNameIs(before: string, name: string, after: string)
    requires AllSpace(before) && AllSpace(after) && name != "" && !IsSpace(name[0])
    ensures StripNydusV3Suffix(before + (name + "_nydus_v3") + after) == name
    ensures !IsSpace(name[|name| - 1]) && !HasSuffix(name, "_nydus_v3") ==>
              StripNydusV3Suffix(before + name + after) == name
  {
    var named := name + "_nydus_v3";
    assert named[|named| - 1] == '3';
    assert named[..|name|] == name && named[|name|..] == NYDUS_V3_TARGET_SUFFIX;
    TrimSpaceIs(before, named, after);
    if !IsSpace(name[|name| - 1]) {
      TrimSpaceIs(before, name, after);
    }
  }

  /**
   The two formats of a target are built in one job exactly when the name
   without its suffix needs no trimming and ends with no second suffix.
   */
  lemma FormatsShareJob(target: string)
    ensures var name := StripNydusV3Suffix(target);
      StripNydusV3Suffix(NormalizeTargetForMode(target, true))
          == StripNydusV3Suffix(NormalizeTargetForMode(target, false))
      <==> TrimSpace(name) == name && !HasNydusV3Suffix(name)
  {
    var name := StripNydusV3Suffix(target);
    NydusKeyIsTargetKey(target);
    TrimSpaceTrims(name);
    assert |TrimSuffix(TrimSpace(name), NYDUS_V3_TARGET_SUFFIX)| < |TrimSpace(name)| <==> HasNydusV3Suffix(name);
    if |TrimSpace(name)| == |name| {
      TrimLeftSpaceTrims(name);
      TrimRightSpaceTrims(TrimLeftSpace(name));
      assert TrimSpace(name) == name;
    }
  }

  /** A target with a doubled suffix has its two formats built in different jobs. */
  lemma DoubledSuffixSplitsJobs()
    ensures var target := "app" + NYDUS_V3_TARGET_SUFFIX + NYDUS_V3_TARGET_SUFFIX;
      StripNydusV3Suffix(NormalizeTargetForMode(target, true))
          != StripNydusV3Suffix(NormalizeTargetForMode(target, false))
  {
    var once := "app" + NYDUS_V3_TARGET_SUFFIX;
    var target := once + NYDUS_V3_TARGET_SUFFIX;
    assert target[0] == once[0] == 'a' && target[|target| - 1] == once[|once| - 1] == '3';
    TrimmedStays(target);
    TrimmedStays(once);
    assert target[..|once|] == once && target[|once|..] == NYDUS_V3_TARGET_SUFFIX;
    assert once[3..] == NYDUS_V3_TARGET_SUFFIX;
    FormatsShareJob(target);
  }
}
