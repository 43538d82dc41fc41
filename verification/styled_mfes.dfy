/**
 * The per-MFE registrations: for every micro-frontend styled by the theme, one
 * Dockerfile patch named after its post-npm-install hook and one footer plugin-slot
 * item. Patch and slot bodies are opaque text that the host renders later, so they
 * are parameters here.
 */
module StyledMfes {
  import Strings

  const STYLED_MFES: seq<string> := ["learning", "learner-dashboard", "profile", "account", "discussions"]
  const PATCH_PREFIX: string := "mfe-dockerfile-post-npm-install-"
  const FOOTER_SLOT: string := "footer_slot"

  /** The separate patch for the authn MFE, which only installs the brand package. */
  const AUTHN_PATCH_NAME: string := "mfe-dockerfile-post-npm-install-authn"

  /** A named patch: (patch name, patch body). */
  type Patch = (string, string)

  /** A plugin-slot item: (MFE name, slot name, slot body). */
  type SlotItem = (string, string, string)

  /** No name occurs twice. */
  predicate Distinct(names: seq<string>)
  {
    forall i, j :: 0 <= i < j < |names| ==> names[i] != names[j]
  }

  /** The hook patch name of one MFE. */
  function PatchName(mfe: string): (name: string)
    ensures Strings.StartsWith(name, PATCH_PREFIX) && name[|PATCH_PREFIX|..] == mfe
  {
    Strings.PrependThenDrop(PATCH_PREFIX, mfe);
    PATCH_PREFIX + mfe
  }

  /** One Dockerfile patch per MFE, in list order, all with the same body. */
  function DockerfilePatches(mfes: seq<string>, body: string): (r: seq<Patch>)
    ensures |r| == |mfes|
    ensures forall i :: 0 <= i < |mfes| ==> r[i] == (PatchName(mfes[i]), body)
  {
    if mfes == [] then [] else [(PatchName(mfes[0]), body)] + DockerfilePatches(mfes[1..], body)
  }

  /** One footer-slot item per MFE, in list order, all with the same body. */
  function FooterSlots(mfes: seq<string>, body: string): (r: seq<SlotItem>)
    ensures |r| == |mfes|
    ensures forall i :: 0 <= i < |mfes| ==> r[i] == (mfes[i], FOOTER_SLOT, body)
  {
    if mfes == [] then [] else [(mfes[0], FOOTER_SLOT, body)] + FooterSlots(mfes[1..], body)
  }

  /** The names of a list of patches, in order. */
  function Names(patches: seq<Patch>): (names: seq<string>)
    ensures |names| == |patches|
    ensures forall i :: 0 <= i < |patches| ==> names[i] == patches[i].0
  {
    if patches == [] then [] else [patches[0].0] + Names(patches[1..])
  }

  // ---------------------------------------------------------------------------
  // Properties

  /** Patch names are pairwise distinct exactly when the MFE names are. */
  lemma PatchNamesDistinct(mfes: seq<string>, body: string)
    ensures Distinct(Names(DockerfilePatches(mfes, body))) <==> Distinct(mfes)
  {
    var names := Names(DockerfilePatches(mfes, body));
    forall i, j | 0 <= i < j < |mfes| ensures names[i] != names[j] <==> mfes[i] != mfes[j] {
      Strings.PrependInjective(PATCH_PREFIX, mfes[i], mfes[j]);
    }
  }

  /**
   * The patch named after the MFE `mfes[k]` belongs to that MFE alone: a position of
   * the patch list carries that name exactly when its MFE is `mfes[k]`.
   */
  lemma PatchNameOwner(mfes: seq<string>, body: string, k: int)
    requires 0 <= k < |mfes|
    ensures forall i :: 0 <= i < |mfes| ==>
      (DockerfilePatches(mfes, body)[i].0 == PATCH_PREFIX + mfes[k] <==> mfes[i] == mfes[k])
  {
    forall i | 0 <= i < |mfes|
      ensures DockerfilePatches(mfes, body)[i].0 == PATCH_PREFIX + mfes[k] <==> mfes[i] == mfes[k]
    {
      Strings.PrependInjective(PATCH_PREFIX, mfes[i], mfes[k]);
    }
  }

  /**
   * For the five styled MFEs: five patches and five slot items, one pair per MFE in
   * list order, no patch name twice, and none clashing with the authn patch.
   */
  lemma StyledMfeRegistrations(patchBody: string, slotBody: string)
    ensures var patches := DockerfilePatches(STYLED_MFES, patchBody);
      var slots := FooterSlots(STYLED_MFES, slotBody);
      && |patches| == 5 && |slots| == 5
      && Distinct(Names(patches))
      && Distinct(Names(patches) + [AUTHN_PATCH_NAME])
      && forall i :: 0 <= i < 5 ==>
           patches[i].0 == PATCH_PREFIX + STYLED_MFES[i] && slots[i].0 == STYLED_MFES[i]
  {
    var mfes := STYLED_MFES;
    var all := mfes + ["authn"];
    assert Distinct(all) by {
      forall i, j | 0 <= i < j < |all| ensures all[i] != all[j] {
        assert |all[i]| != |all[j]| || all[i][0] != all[j][0];
      }
    }
    var patches := DockerfilePatches(all, patchBody);
    PatchNamesDistinct(all, patchBody);
    assert PATCH_PREFIX + "authn" == AUTHN_PATCH_NAME;
    assert Names(patches) == Names(DockerfilePatches(mfes, patchBody)) + [AUTHN_PATCH_NAME];
    assert Names(DockerfilePatches(mfes, patchBody)) == Names(patches)[..5];
  }
}
