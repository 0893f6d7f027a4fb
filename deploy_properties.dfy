/**
 * What the deploy endpoint guarantees, proved about DeployRoute.Decide: the
 * order of its checks, the credit gate, when it writes, what a successful
 * response carries, and the polling and persistence behaviour.
 */
module DeployProperties {
  import opened Wrappers
  import opened Text
  import opened Relay
  import opened DeployRoute

  /** Configuration, body, required fields, user and profile all passed. */
  predicate PassesAuth(w: Inputs) {
    MissingEnv(w.env) == [] && w.body.Ok? && HasRequiredFields(w.body.value) &&
    w.user.Some? && w.profile.Found?
  }

  /** A missing setting answers 500 naming every missing setting, and nothing is written. */
  lemma EnvCheckComesFirst(w: Inputs)
    requires MissingEnv(w.env) != []
    ensures Decide(w) == Outcome(Response(500, Failure(MissingEnvMessage(MissingEnv(w.env)))), [])
    ensures forall i :: 0 <= i < |MissingEnv(w.env)| ==>
              Contains(Decide(w).response.payload.error, MissingEnv(w.env)[i])
  {
    var missing := MissingEnv(w.env);
    forall i | 0 <= i < |missing|
      ensures Contains(MissingEnvMessage(missing), missing[i])
    {
      ContainsRight("Missing env: ", Join(missing, ", "), missing[i]);
    }
  }

  /** A name is listed exactly when it is one of the four settings and that setting is empty. */
  lemma MissingEnvNamesExactly(env: Env, n: string)
    ensures n in MissingEnv(env) <==>
            (n == "SUPABASE_URL" && env.supabaseUrl == "") ||
            (n == "SUPABASE_SERVICE_KEY" && env.supabaseServiceKey == "") ||
            (n == "NEXT_PUBLIC_PACK_FACTORY_ADDRESS" && env.factoryAddress == "") ||
            (n == "GELATO_API_KEY" && env.gelatoApiKey == "")
  {
    var values := EnvValues(env);
    if n in MissingEnv(env) {
      var i :| 0 <= i < |EnvNames| && EnvNames[i] == n && values[i] == "";
      assert i == 0 || i == 1 || i == 2 || i == 3;
    }
    assert EnvNames[0] == "SUPABASE_URL" && values[0] == env.supabaseUrl;
    assert EnvNames[1] == "SUPABASE_SERVICE_KEY" && values[1] == env.supabaseServiceKey;
    assert EnvNames[2] == "NEXT_PUBLIC_PACK_FACTORY_ADDRESS" && values[2] == env.factoryAddress;
    assert EnvNames[3] == "GELATO_API_KEY" && values[3] == env.gelatoApiKey;
  }

  /** A missing name, symbol or owner is rejected before the user or profile is looked at. */
  lemma FieldsCheckedBeforeAuth(w: Inputs, user: Option<string>, profile: Profile)
    requires MissingEnv(w.env) == [] && w.body.Ok? && !HasRequiredFields(w.body.value)
    ensures Decide(w) == Outcome(Response(400, Failure("Missing required fields")), [])
    ensures Decide(w.(user := user, profile := profile)) == Decide(w)
  {
  }

  lemma NoUserIsUnauthorized(w: Inputs)
    requires MissingEnv(w.env) == [] && w.body.Ok? && HasRequiredFields(w.body.value) && w.user.None?
    ensures Decide(w) == Outcome(Response(401, Failure("Unauthorized")), [])
  {
  }

  lemma NoProfileIsBadRequest(w: Inputs)
    requires MissingEnv(w.env) == [] && w.body.Ok? && HasRequiredFields(w.body.value) && w.user.Some?
    requires !w.profile.Found?
    ensures Decide(w) == Outcome(Response(400, Failure("Profile not found")), [])
  {
  }

  /** Once authenticated, the answer is 402 exactly when the balance (null read as 0) is below 100. */
  lemma CreditGate(w: Inputs)
    requires PassesAuth(w)
    ensures Decide(w).response.status == 402 <==> CreditsOf(w.profile) < CreditsRequired
    ensures CreditsOf(w.profile) < CreditsRequired ==>
              Decide(w) == Outcome(Response(402, Failure("Insufficient credits")), [])
  {
  }

  /** 99 credits are refused, 100 pass, and a null balance counts as none. */
  lemma CreditBoundary(w: Inputs)
    requires PassesAuth(w)
    ensures w.profile == Found(Some(99)) ==> Decide(w).response.status == 402
    ensures w.profile == Found(None) ==> Decide(w).response.status == 402
    ensures w.profile == Found(Some(100)) ==> Decide(w).response.status != 402
  {
    CreditGate(w);
  }

  /** A missing token image is only noticed after the credit check. */
  lemma TokenImageCheckedAfterCredits(w: Inputs)
    requires PassesAuth(w) && FirstUri(w.body.value.tokenUris) == ""
    ensures CreditsOf(w.profile) < CreditsRequired ==> Decide(w).response == Response(402, Failure("Insufficient credits"))
    ensures CreditsOf(w.profile) >= CreditsRequired ==>
              Decide(w) == Outcome(Response(400, Failure("No token image provided")), [])
  {
  }

  /**
   * Nothing is written unless the relay produced a hash, the receipt holds a
   * CollectionCreated event and its owner matches the request; the last write
   * is then the debit, which never takes the balance below zero.
   */
  lemma WritesOnlyAfterVerifiedEvent(w: Inputs)
    requires Decide(w).writes != []
    ensures Admitted(w) && w.encoding.Ok?
    ensures SponsoredCall(w.submission, w.env.factoryAddress).Ok?
    ensures Wait(w.status, w.latency, DefaultTimeout).Ok?
    ensures w.receipt.Mined? && FindCreated(w.receipt.logs).Some?
    ensures EqualsIgnoreCase(FindCreated(w.receipt.logs).value.owner, w.body.value.ownerAddress)
    ensures var writes := Decide(w).writes;
            writes[|writes| - 1] == SetCredits(w.user.value, CreditsOf(w.profile) - CreditsRequired) &&
            writes[|writes| - 1].credits >= 0
    ensures forall i :: 0 <= i < |Decide(w).writes| - 1 ==> !Decide(w).writes[i].SetCredits?
  {
  }

  /**
   * A successful response carries the hash the relay reported, the address
   * from the first CollectionCreated event, whose owner matches the request
   * ignoring case, and 100 deducted credits.
   */
  lemma SuccessIsConfirmed(w: Inputs)
    requires Decide(w).response.payload.Deployed?
    ensures Decide(w).response.status == 200
    ensures Decide(w).response.payload.creditsDeducted == CreditsRequired
    ensures Wait(w.status, w.latency, DefaultTimeout) == Ok(Decide(w).response.payload.transactionHash)
    ensures w.receipt.Mined? && FindCreated(w.receipt.logs).Some?
    ensures FindCreated(w.receipt.logs).value.collection == Decide(w).response.payload.collectionAddress
    ensures EqualsIgnoreCase(FindCreated(w.receipt.logs).value.owner, w.body.value.ownerAddress)
    ensures CreditsOf(w.profile) >= CreditsRequired && Decide(w).writes != []
    ensures !w.debit.UpdateThrew?
  {
    WritesOnlyAfterVerifiedEvent(w);
  }

  /** Conversely, once every check passes and the debit does not raise, the deployment is reported. */
  lemma VerifiedEventSucceeds(w: Inputs, txHash: string, e: LogEntry)
    requires Admitted(w) && w.encoding.Ok? && w.submission.Ok?
    requires Wait(w.status, w.latency, DefaultTimeout) == Ok(txHash)
    requires w.receipt.Mined? && FindCreated(w.receipt.logs) == Some(e)
    requires EqualsIgnoreCase(e.owner, w.body.value.ownerAddress)
    requires !w.debit.UpdateThrew?
    ensures Decide(w).response == Response(200, Deployed(e.collection, txHash, CreditsRequired))
  {
  }

  /** The outcome of the inserts never changes the response. */
  lemma PersistenceDoesNotChangeResponse(w: Inputs, insert: InsertResult)
    ensures Decide(w.(packInsert := insert)).response == Decide(w).response
  {
  }

  /** The fallback record is written only after the primary insert returned an error. */
  lemma FallbackOnlyWhenRejected(w: Inputs)
    requires Decide(w).writes != []
    ensures Decide(w).writes[0].InsertPack?
    ensures |Decide(w).writes| == 3 <==> w.packInsert == Rejected
    ensures w.packInsert == Rejected ==>
              Decide(w).writes[1] == InsertNft(NftRowOf(Decide(w).writes[0].pack))
  {
  }

  /** A debit that raises turns a deployed collection into a 500, after all writes were attempted. */
  lemma DebitFailureIsServerError(w: Inputs)
    requires Decide(w).writes != [] && w.debit.UpdateThrew?
    ensures Decide(w).response == Response(500, Failure(ErrorText(w.debit.message)))
  {
  }

  /**
   * A task that never reports success — reverted, cancelled, pending or
   * unreachable on every poll — ends in the 500 timeout, not in its revert
   * reason, and nothing is written.
   */
  lemma FailedTaskTimesOut(w: Inputs)
    requires Admitted(w) && w.encoding.Ok? && w.submission.Ok?
    requires forall i :: !w.status(i).ExecSuccess?
    ensures Decide(w) == Outcome(Response(500, Failure(TimeoutMessage(DefaultTimeout))), [])
  {
    var r := Wait(w.status, w.latency, DefaultTimeout);
    if r.Ok? {
      WaitSucceedsIff(w.status, w.latency, DefaultTimeout, r.value);
      assert false;
    }
    WaitFailsOnlyByTimeout(w.status, w.latency, DefaultTimeout);
  }

  /** The relay's "unauthorized target" rejection answers 500 with a message naming the factory address. */
  lemma UnwhitelistedTarget(w: Inputs)
    requires Admitted(w) && w.encoding.Ok?
    requires w.submission.Err? && Contains(w.submission.error, UnauthorizedTarget)
    ensures Decide(w).response.status == 500 && Decide(w).writes == []
    ensures Contains(Decide(w).response.payload.error, w.env.factoryAddress)
  {
    var m := WhitelistMessage(w.env.factoryAddress);
    assert m != [];
  }

  lemma MissingReceiptIsUpstreamError(w: Inputs, txHash: string)
    requires Admitted(w) && w.encoding.Ok? && w.submission.Ok?
    requires Wait(w.status, w.latency, DefaultTimeout) == Ok(txHash)
    requires w.receipt == NoReceipt
    ensures Decide(w) == Outcome(Response(502, Failure("Transaction receipt not found")), [])
  {
  }

  /** Logs that do not parse, or parse as other events, never stand in for the creation event. */
  lemma NoCreationEventIsUpstreamError(w: Inputs, txHash: string)
    requires Admitted(w) && w.encoding.Ok? && w.submission.Ok?
    requires Wait(w.status, w.latency, DefaultTimeout) == Ok(txHash)
    requires w.receipt.Mined? && forall i :: 0 <= i < |w.receipt.logs| ==> !IsCreated(w.receipt.logs[i])
    ensures Decide(w) == Outcome(Response(502, Failure("CollectionCreated event not found")), [])
  {
  }

  /** An owner that differs beyond letter case answers 502 with both addresses in the message. */
  lemma OwnerMismatchIsUpstreamError(w: Inputs, txHash: string, e: LogEntry)
    requires Admitted(w) && w.encoding.Ok? && w.submission.Ok?
    requires Wait(w.status, w.latency, DefaultTimeout) == Ok(txHash)
    requires w.receipt.Mined? && FindCreated(w.receipt.logs) == Some(e)
    requires !EqualsIgnoreCase(e.owner, w.body.value.ownerAddress)
    ensures Decide(w).response.status == 502 && Decide(w).writes == []
    ensures Contains(Decide(w).response.payload.error, w.body.value.ownerAddress)
    ensures Contains(Decide(w).response.payload.error, e.owner)
  {
    assert Decide(w) == Fail(502, MismatchMessage(w.body.value.ownerAddress, e.owner));
    MismatchMessageNamesBoth(w.body.value.ownerAddress, e.owner);
  }

  lemma MismatchMessageNamesBoth(expected: string, got: string)
    ensures Contains(MismatchMessage(expected, got), expected) && Contains(MismatchMessage(expected, got), got)
  {
    ContainsSelf(expected);
    ContainsSelf(got);
    ContainsLeft(expected, ", got " + got, expected);
    ContainsRight("Collection ownership mismatch. Expected ", expected + ", got " + got, expected);
    ContainsRight("Collection ownership mismatch. Expected " + expected + ", got ", got, got);
    assert MismatchMessage(expected, got) ==
           "Collection ownership mismatch. Expected " + (expected + ", got " + got);
  }

  /* ---------- Token URI normalisation ---------- */

  /** The method and the reference definition agree with "pad with the first entry, drop the rest". */
  lemma {:induction false} NormalizedKeepsEverySuppliedEntry(first: string, tokenUris: seq<string>)
    requires |tokenUris| >= UriSlots
    ensures Normalized(first, tokenUris) == tokenUris[..UriSlots]
    ensures Normalized(first, tokenUris) == Normalized(first, tokenUris[..UriSlots])
  {
  }

  /** A single URI is replicated into all six slots. */
  lemma SingleUriReplicated(u: string)
    ensures Normalized(u, [u]) == [u, u, u, u, u, u]
  {
  }

  /** A six-entry list passes through unchanged, even with empty later entries. */
  lemma SixUrisUnchanged(uris: seq<string>)
    requires |uris| == UriSlots && uris[0] != ""
    ensures UrisOf(Body("", "", "", UriArray(uris), "", 0, 0, "")) == uris
  {
  }

  /** The route passes no value for the tuple's last two components. */
  lemma CallLeavesOutInitialMint()
    ensures Unsupplied(FactoryTupleComponents, SuppliedComponents) == [InitialMintTo, InitialMintAmount]
  {
    var c, s := FactoryTupleComponents, SuppliedComponents;
    assert c[9..] == [InitialMintTo, InitialMintAmount];
    assert Unsupplied(c[9..], s) == [InitialMintTo, InitialMintAmount] by {
      assert c[9..][1..] == [InitialMintAmount] && [InitialMintAmount][1..] == [];
    }
    forall i | 0 <= i < 9 ensures c[i] in s && c[i..][1..] == c[i + 1..] {
      assert c[i] == s[i];
    }
    assert c[0..] == c;
  }

  /**
   * The end-to-end request: one URI, 150 credits, a relay that is pending once
   * and then succeeds, and an event owner written in capitals.
   */
  lemma EndToEndDeployment(w: Inputs)
    requires w.env == Env("https://db", "svc", "0xfactory", "key")
    requires w.body == Ok(Body("Set A", "SA", "", UriArray(["ipfs://x"]), "0.01", 100, 500, "0xabc"))
    requires w.user == Some("user-1") && w.profile == Found(Some(150))
    requires w.encoding.Ok? && w.submission.Ok?
    requires w.status(0) == Pending && w.status(1) == ExecSuccess("0xdead") && w.latency(0) == 10
    requires w.receipt == Mined([Unparsed, Parsed("CollectionCreated", "0xcol", "0xABC")])
    requires w.debit == Updated
    ensures Decide(w).response == Response(200, Deployed("0xcol", "0xdead", 100))
    ensures Decide(w).writes[|Decide(w).writes| - 1] == SetCredits("user-1", 50)
    ensures Decide(w).writes[0].pack.allTokenUris == ["ipfs://x", "ipfs://x", "ipfs://x", "ipfs://x", "ipfs://x", "ipfs://x"]
  {
    var e := Parsed("CollectionCreated", "0xcol", "0xABC");
    assert MissingEnv(w.env) == [];
    assert FirstUri(w.body.value.tokenUris) == "ipfs://x";
    assert Admitted(w);
    assert PollStart(w.latency, 1) == 2010;
    PollComplete(w.status, w.latency, DefaultTimeout, 0, 1, "0xdead");
    EqualsIgnoreCaseIff("0xABC", "0xabc");
    assert w.receipt.logs[1..] == [e];
    assert FindCreated(w.receipt.logs) == Some(e);
    VerifiedEventSucceeds(w, "0xdead", e);
    WritesOnlyAfterVerifiedEvent(w);
    SingleUriReplicated("ipfs://x");
  }
}
