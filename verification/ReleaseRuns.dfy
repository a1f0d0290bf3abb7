/**
 * Sequences of attempts, each of which may have crashed anywhere. `rs` lists the release before the first
 * attempt and after each one; nobody else writes to it.
 */
module ReleaseRuns {
  import opened Prelude
  import opened ReleaseModel
  import opened ReleaseReconciliation

  predicate Attempts(inputs: seq<Inputs>, rs: seq<Option<Release>>) {
    |rs| == |inputs| + 1 && forall i :: 0 <= i < |inputs| ==> SafeAttempt(inputs[i], rs[i], rs[i + 1])
  }

  predicate KeptSince(before: Option<Release>, after: Option<Release>) {
    before.Some? ==> after.Some? && Kept(before.value, after.value)
  }

  lemma KeptFurther(a: Option<Release>, b: Option<Release>, c: Option<Release>)
    requires KeptSince(a, b) && KeptSince(b, c)
    ensures KeptSince(a, c)
  {
  }

  /** Over any number of attempts no listed asset is replaced or removed, and a published release stays as it is. */
  lemma {:induction false} NothingReplaced(inputs: seq<Inputs>, rs: seq<Option<Release>>, i: nat, j: nat)
    requires Attempts(inputs, rs) && i <= j < |rs|
    ensures KeptSince(rs[i], rs[j])
    decreases j
  {
    hide SafeAttempt, Kept;
    if i == j {
      KeptItself(rs[i]);
    } else {
      NothingReplaced(inputs, rs, i, j - 1);
      AttemptKeeps(inputs[j - 1], rs[j - 1], rs[j]);
      KeptFurther(rs[i], rs[j - 1], rs[j]);
    }
  }

  lemma KeptItself(r: Option<Release>)
    ensures KeptSince(r, r)
  {
  }

  lemma AttemptKeeps(inputs: Inputs, before: Option<Release>, after: Option<Release>)
    requires SafeAttempt(inputs, before, after)
    ensures KeptSince(before, after)
  {
  }

  /**
   * If a release has become public, one of the attempts made it so: it had the complete set at hand, and
   * what is public is that set, byte for byte, and immutable.
   */
  lemma {:induction false} PublishedExactly(inputs: seq<Inputs>, rs: seq<Option<Release>>, j: nat) returns (i: nat)
    requires Attempts(inputs, rs) && j < |rs| && !Published(rs[0]) && Published(rs[j])
    ensures i < j && PublishedFor(inputs[i], rs[j].value) && rs[i + 1] == rs[j]
    decreases j
  {
    hide PublishedFor, AppendsLocal, ReleaseOk, NoneDiffers;
    if Published(rs[j - 1]) {
      i := PublishedExactly(inputs, rs, j - 1);
      NothingReplaced(inputs, rs, j - 1, j);
    } else {
      assert SafeAttempt(inputs[j - 1], rs[j - 1], rs[j]);
      i := j - 1;
    }
  }

  /** While a listed asset differs from the local one of its name, every attempt leaves everything as it is. */
  lemma {:induction false} MismatchStopsEverything(inputs: seq<Inputs>, rs: seq<Option<Release>>, j: nat)
    requires Attempts(inputs, rs) && j < |rs| && rs[0].Some?
    requires forall i :: 0 <= i < |inputs| ==> !NoneDiffers(inputs[i].assets, rs[0].value)
    ensures rs[j] == rs[0]
    decreases j
  {
    hide NoneDiffers;
    if j > 0 {
      MismatchStopsEverything(inputs, rs, j - 1);
      assert SafeAttempt(inputs[j - 1], rs[j - 1], rs[j]);
    }
  }

  /** No asset is left in a state other than uploaded. */
  predicate AllUploaded(r: Option<Release>) {
    r.Some? ==> forall i :: 0 <= i < |r.value.assets| ==> r.value.assets[i].uploaded
  }

  lemma AppendedAgree(inputs: Inputs, before: Option<Release>, after: Release)
    requires LocalsUnique(inputs.assets) && AllUploaded(Some(after))
    requires AppendsLocal(inputs.assets, Listed(before), after)
    requires before.Some? ==> before.value.assets <= after.assets && NoneDiffers(inputs.assets, before.value)
    ensures NoneDiffers(inputs.assets, after)
  {
    forall i, j | 0 <= i < |after.assets| && 0 <= j < |inputs.assets| && after.assets[i].name == inputs.assets[j].name
      ensures Same(inputs.assets[j], after.assets[i])
    {
      if i < Listed(before) {
        assert after.assets[i] == before.value.assets[i];
      } else {
        assert IsLocal(inputs.assets, after.assets[i]);
        var k :| && 0 <= k < |inputs.assets| && after.assets[i].name == inputs.assets[k].name
                 && (after.assets[i].uploaded ==> Same(inputs.assets[k], after.assets[i]));
        assert k == j;
      }
    }
  }

  lemma AppendedListed(inputs: Inputs, before: Option<Release>, after: Release)
    requires LocalNames(inputs.assets) <= ExpectedNames(inputs) && AllUploaded(Some(after))
    requires AppendsLocal(inputs.assets, Listed(before), after) && NamesUnique(after.assets) && CreatedFor(inputs, after)
    requires before.Some? ==> before.value.assets <= after.assets && ReleaseOk(inputs, before.value, true, false)
    ensures ReleaseOk(inputs, after, true, false)
  {
    hide ExpectedNames, NamesUnique;
    forall i | 0 <= i < |after.assets| ensures after.assets[i].name in ExpectedNames(inputs) && after.assets[i].id > 0 {
      if i < Listed(before) {
        assert after.assets[i] == before.value.assets[i];
      } else {
        assert IsLocal(inputs.assets, after.assets[i]);
      }
    }
  }

  lemma PublishedNames(inputs: Inputs, rel: Release)
    requires PublishedFor(inputs, rel)
    ensures rel.immutable && RemoteNames(rel.assets) == ExpectedNames(inputs)
  {
    forall i | 0 <= i < |rel.assets| ensures rel.assets[i].name in LocalNames(inputs.assets) {
      assert IsCopy(inputs.assets, rel.assets[i]);
    }
    forall j | 0 <= j < |inputs.assets| ensures inputs.assets[j].name in RemoteNames(rel.assets) {
      assert HasCopy(rel.assets, inputs.assets[j]);
    }
  }

  /**
   * A crash anywhere in an attempt that could have succeeded leaves a release from which the next
   * undisturbed attempt succeeds, exactly when it left no half-uploaded asset.
   */
  lemma CrashIsResumable(inputs: Inputs, before: Option<Release>, after: Option<Release>)
    requires SafeAttempt(inputs, before, after) && Resumable(inputs, before) && LocalsUnique(inputs.assets)
    requires LocalNames(inputs.assets) <= ExpectedNames(inputs)
    ensures Resumable(inputs, after) <==> AllUploaded(after)
  {
    hide NoneDiffers, ExpectedNames, LocalNames, RemoteNames, NamesUnique, AppendsLocal, PublishedFor;
    if after.Some? && AllUploaded(after) {
      AppendedAgree(inputs, before, after.value);
      AppendedListed(inputs, before, after.value);
      if Published(after) && !Published(before) {
        PublishedNames(inputs, after.value);
      }
    }
  }

  /** After success, of a draft or of a publication, the same attempt can resume and has nothing to upload. */
  lemma SuccessIsResumable(inputs: Inputs, after: Option<Release>)
    requires Succeeded(inputs, after)
    ensures Resumable(inputs, after) && (!inputs.draftOnly ==> Published(after))
    ensures LocalNames(inputs.assets) <= ListedNames(after)
  {
    hide ExpectedNames, LocalNames, RemoteNames, NoneDiffers, Exact;
    PresentAgrees(inputs.assets, after.value);
    NamesBetween(inputs, after.value);
  }

  lemma PresentAgrees(assets: seq<Asset>, rel: Release)
    requires AllPresent(assets, rel.assets) && NamesUnique(rel.assets)
    ensures NoneDiffers(assets, rel)
  {
    forall i, j | 0 <= i < |rel.assets| && 0 <= j < |assets| && rel.assets[i].name == assets[j].name
      ensures Same(assets[j], rel.assets[i])
    {
      assert HasCopy(rel.assets, assets[j]);
      var k :| 0 <= k < |rel.assets| && Same(assets[j], rel.assets[k]);
      assert k == i;
    }
  }

  /** What an attempt appends has a local name that the release did not list. */
  lemma AppendedIsNew(inputs: Inputs, before: Release, after: Release)
    requires before.assets <= after.assets && NamesUnique(after.assets)
    requires AppendsLocal(inputs.assets, |before.assets|, after)
    ensures |after.assets| > |before.assets| ==>
              after.assets[|before.assets|].name in LocalNames(inputs.assets) - RemoteNames(before.assets)
  {
    var n := |before.assets|;
    if |after.assets| > n {
      assert IsLocal(inputs.assets, after.assets[n]);
      forall i | 0 <= i < n ensures before.assets[i].name != after.assets[n].name {
        assert before.assets[i] == after.assets[i];
      }
    }
  }

  /** Whatever an attempt does with what an earlier success left behind, it changes nothing. */
  lemma SuccessIsStable(inputs: Inputs, before: Option<Release>, after: Option<Release>)
    requires Succeeded(inputs, before) && SafeAttempt(inputs, before, after)
    ensures after == before
  {
    hide NoneDiffers, Exact, NamesUnique, LocalNames, RemoteNames, ExpectedNames, AppendsLocal;
    SuccessIsResumable(inputs, before);
    AppendedIsNew(inputs, before.value, after.value);
    assert |after.value.assets| == |before.value.assets|;
    assert after.value.assets == before.value.assets;
    assert after.value.draft == before.value.draft;
  }

  /** A second run after success, undisturbed, succeeds, uploads nothing and changes nothing. */
  method Rerun(service: Service, hash: Hash, inputs: Inputs) returns (r: Result<ReconcileResult>)
    requires Injective(hash) && service.Valid(hash) && LocalsUnique(inputs.assets)
    requires !service.faulty && Succeeded(inputs, service.release)
    requires Guarded(inputs, service.immutability, service.binding)
    modifies service
    ensures r.Ok? && r.value.uploaded == {} && service.release == old(service.release)
  {
    hide ReleaseOk, NoneDiffers, NamesUnique, ExpectedNames, LocalNames, Exact, AllPresent, service.Valid, Injective,
         AppendsLocal, SafeAttempt, Succeeded, Guarded;
    SuccessIsResumable(inputs, service.release);
    r := Reconcile(service, hash, inputs);
    SuccessIsStable(inputs, old(service.release), service.release);
  }
}
