/**
 * The pack-collection deploy endpoint (POST /api/deploy-pack-collection) as a
 * decision procedure. Every external service — environment, request body,
 * the data store, the ABI encoder, the relay and the chain node — is an
 * input; the result is the HTTP response together with the writes the
 * handler attempts on the data store.
 */
module DeployRoute {
  import opened Wrappers
  import opened Text
  import opened Relay

  const CreditsRequired: int := 100
  const UriSlots: nat := 6
  const CreatedEventName: string := "CollectionCreated"

  /* ---------- Inputs ---------- */

  /** The required settings; an unset variable reads as "". */
  datatype Env = Env(supabaseUrl: string, supabaseServiceKey: string, factoryAddress: string, gelatoApiKey: string)

  /** The `tokenUris` field: an array (entries already turned to strings) or anything else. */
  datatype UriField = NotAnArray | UriArray(items: seq<string>)

  /** The JSON body; a missing or falsy string field reads as "". */
  datatype Body = Body(
    name: string, symbol: string, description: string,
    tokenUris: UriField,
    packPriceEth: string, maxPacks: int, royaltyBps: int,
    ownerAddress: string)

  /** The profile lookup: a store error, no row, or a row whose credits may be null. */
  datatype Profile = ProfileError | NoProfile | Found(credits: Option<int>)

  /** What the ABI-encoding step produces that the handler keeps: the price in wei. */
  datatype Encoded = Encoded(packPriceWei: int)

  /** A receipt log: one the factory interface cannot parse, or a parsed event. */
  datatype LogEntry = Unparsed | Parsed(name: string, collection: string, owner: string)

  datatype Receipt = ReceiptFailed(message: string) | NoReceipt | Mined(logs: seq<LogEntry>)

  /** An insert returns normally, returns an error object, or raises. */
  datatype InsertResult = Inserted | Rejected | Threw

  datatype UpdateResult = Updated | UpdateRejected | UpdateThrew(message: string)

  datatype Inputs = Inputs(
    env: Env,
    body: Result<Body>,              // req.json(), which raises on malformed JSON
    user: Option<string>,            // the authenticated user's id
    profile: Profile,
    encoding: Result<Encoded>,       // parseEther, BigInt and encodeFunctionData, which may raise
    submission: Result<string>,      // the relay's task id, or its error message
    status: nat -> TaskStatus,       // the k-th task status
    latency: nat -> nat,             // how long the k-th status request took
    receipt: Receipt,
    packInsert: InsertResult,
    debit: UpdateResult)

  /* ---------- Outputs ---------- */

  datatype Payload =
    | Failure(error: string)
    | Deployed(collectionAddress: string, transactionHash: string, creditsDeducted: int)

  datatype Response = Response(status: int, payload: Payload)

  datatype PackRow = PackRow(
    collectionAddress: string, ownerAddress: string, userId: string,
    name: string, symbol: string, description: string,
    packImageUri: string, nftImageUris: seq<string>, allTokenUris: seq<string>,
    packPriceWei: int, maxPacks: int, royaltyBps: int, royaltyRecipient: string)

  datatype NftRow = NftRow(
    collectionAddress: string, ownerAddress: string, userId: string,
    name: string, symbol: string, description: string,
    imageUri: string, maxSupply: int, mintPrice: int, royaltyBps: int, royaltyRecipient: string)

  /** A write the handler attempts on the data store, in order. */
  datatype Write = InsertPack(pack: PackRow) | InsertNft(nft: NftRow) | SetCredits(userId: string, credits: int)

  datatype Outcome = Outcome(response: Response, writes: seq<Write>)

  /* ---------- Environment check ---------- */

  const EnvNames: seq<string> :=
    ["SUPABASE_URL", "SUPABASE_SERVICE_KEY", "NEXT_PUBLIC_PACK_FACTORY_ADDRESS", "GELATO_API_KEY"]

  function EnvValues(env: Env): seq<string> {
    [env.supabaseUrl, env.supabaseServiceKey, env.factoryAddress, env.gelatoApiKey]
  }

  /** b contains a in order, possibly with gaps. */
  predicate IsSubsequence(a: seq<string>, b: seq<string>) {
    a == [] || (b != [] && (IsSubsequence(a, b[1..]) || (a[0] == b[0] && IsSubsequence(a[1..], b[1..]))))
  }

  /** The names whose value is empty, kept in the order given. */
  function MissingNames(names: seq<string>, values: seq<string>): (r: seq<string>)
    requires |names| == |values|
    ensures IsSubsequence(r, names)
    ensures forall n :: n in r <==> exists i :: 0 <= i < |names| && names[i] == n && values[i] == ""
  {
    if names == [] then []
    else
      var rest := MissingNames(names[1..], values[1..]);
      assert forall i :: 1 <= i < |names| ==> names[1..][i - 1] == names[i] && values[1..][i - 1] == values[i];
      if values[0] == "" then [names[0]] + rest else rest
  }

  /** The settings that are missing, in the fixed order SUPABASE_URL, SUPABASE_SERVICE_KEY, factory address, relay key. */
  function MissingEnv(env: Env): (r: seq<string>)
    ensures IsSubsequence(r, EnvNames)
    ensures r == [] <==> env.supabaseUrl != "" && env.supabaseServiceKey != "" &&
                         env.factoryAddress != "" && env.gelatoApiKey != ""
  {
    var r := MissingNames(EnvNames, EnvValues(env));
    assert env.supabaseUrl == "" ==> EnvNames[0] in r;
    assert env.supabaseServiceKey == "" ==> EnvNames[1] in r;
    assert env.factoryAddress == "" ==> EnvNames[2] in r;
    assert env.gelatoApiKey == "" ==> EnvNames[3] in r;
    assert r != [] ==> r[0] in r;
    r
  }

  /* ---------- Request fields and token URIs ---------- */

  predicate HasRequiredFields(b: Body) {
    b.name != "" && b.symbol != "" && b.ownerAddress != ""
  }

  /** `credits ?? 0` of a found profile. */
  function CreditsOf(p: Profile): int
    requires p.Found?
  {
    match p.credits
    case Some(c) => c
    case None => 0
  }

  /** `first`: the first entry of a non-empty array, otherwise "". */
  function FirstUri(field: UriField): (first: string)
    ensures field.UriArray? && field.items != [] ==> first == field.items[0]
    ensures first != "" ==> field.UriArray? && field.items != []
  {
    if field.UriArray? && field.items != [] then field.items[0] else ""
  }

  /**
   * The six token URIs: the supplied entries first (at most six of them),
   * padded with `first`. Stated as "append six copies, keep six".
   */
  function Normalized(first: string, tokenUris: seq<string>): (uris: seq<string>)
    ensures |uris| == UriSlots
    ensures forall i :: 0 <= i < UriSlots && i < |tokenUris| ==> uris[i] == tokenUris[i]
    ensures forall i :: |tokenUris| <= i < UriSlots ==> uris[i] == first
  {
    (tokenUris + seq(UriSlots, _ => first))[..UriSlots]
  }

  /**
   * Fills a six-slot array with `first`, then overwrites its first
   * min(6, |tokenUris|) slots in place with the supplied entries.
   */
  method NormalizeUris(first: string, tokenUris: seq<string>) returns (uris: seq<string>)
    ensures uris == Normalized(first, tokenUris)
  {
    var a := new string[UriSlots](_ => first);
    var n := if |tokenUris| < UriSlots then |tokenUris| else UriSlots;
    for i := 0 to n
      invariant forall j :: 0 <= j < i ==> a[j] == tokenUris[j]
      invariant forall j :: i <= j < UriSlots ==> a[j] == first
    {
      a[i] := tokenUris[i];
    }
    uris := a[..];
  }

  /* ---------- Contract call ---------- */

  /** The components of the factory's createCollection tuple, by name. */
  datatype Component =
    | Name | Symbol | Owner | TokenURIs | PackPrice | MaxPacks | RoyaltyBps
    | RoyaltyReceiver | Marketplace | InitialMintTo | InitialMintAmount

  /** The tuple's components in ABI order. */
  const FactoryTupleComponents: seq<Component> :=
    [Name, Symbol, Owner, TokenURIs, PackPrice, MaxPacks, RoyaltyBps,
     RoyaltyReceiver, Marketplace, InitialMintTo, InitialMintAmount]

  /** The keys the route passes to encodeFunctionData. */
  const SuppliedComponents: seq<Component> :=
    [Name, Symbol, Owner, TokenURIs, PackPrice, MaxPacks, RoyaltyBps, RoyaltyReceiver, Marketplace]

  /** Components of the tuple for which the call supplies no value, in ABI order. */
  function Unsupplied(components: seq<Component>, supplied: seq<Component>): (r: seq<Component>)
    ensures forall c :: c in r <==> c in components && c !in supplied
  {
    if components == [] then []
    else if components[0] in supplied then Unsupplied(components[1..], supplied)
    else [components[0]] + Unsupplied(components[1..], supplied)
  }

  /* ---------- Receipt events ---------- */

  predicate IsCreated(e: LogEntry) {
    e.Parsed? && e.name == CreatedEventName
  }

  /** `logs.map(safeParse).find(name === 'CollectionCreated')` */
  function FindCreated(logs: seq<LogEntry>): (r: Option<LogEntry>)
    ensures r.None? <==> forall i :: 0 <= i < |logs| ==> !IsCreated(logs[i])
    ensures r.Some? ==> IsCreated(r.value)
    ensures r.Some? ==>
              exists i :: 0 <= i < |logs| && logs[i] == r.value && forall j :: 0 <= j < i ==> !IsCreated(logs[j])
  {
    if logs == [] then None
    else if IsCreated(logs[0]) then Some(logs[0])
    else
      var r := FindCreated(logs[1..]);
      assert forall i :: 1 <= i < |logs| ==> logs[i] == logs[1..][i - 1];
      assert r.Some? ==> exists i :: 0 <= i < |logs| && logs[i] == r.value && forall j :: 0 <= j < i ==> !IsCreated(logs[j]) by {
        if r.Some? {
          var i :| 0 <= i < |logs[1..]| && logs[1..][i] == r.value && forall j :: 0 <= j < i ==> !IsCreated(logs[1..][j]);
          assert logs[i + 1] == r.value && forall j :: 0 <= j < i + 1 ==> !IsCreated(logs[j]);
        }
      }
      r
  }

  function MismatchMessage(expected: string, got: string): string {
    "Collection ownership mismatch. Expected " + expected + ", got " + got
  }

  /* ---------- The handler ---------- */

  /** The outer catch: `err?.message || 'Unknown error'`. */
  function ErrorText(message: string): string {
    if message == "" then "Unknown error" else message
  }

  function Fail(status: int, error: string): Outcome {
    Outcome(Response(status, Failure(error)), [])
  }

  function MissingEnvMessage(missing: seq<string>): string {
    "Missing env: " + Join(missing, ", ")
  }

  /** Everything up to and including the token-image check passed. */
  predicate Admitted(w: Inputs) {
    MissingEnv(w.env) == [] && w.body.Ok? && HasRequiredFields(w.body.value) && w.user.Some? &&
    w.profile.Found? && CreditsOf(w.profile) >= CreditsRequired && FirstUri(w.body.value.tokenUris) != ""
  }

  function UrisOf(b: Body): seq<string>
    requires FirstUri(b.tokenUris) != ""
  {
    Normalized(FirstUri(b.tokenUris), b.tokenUris.items)
  }

  function PackRowOf(w: Inputs, collection: string): PackRow
    requires Admitted(w) && w.encoding.Ok?
  {
    var b := w.body.value;
    var uris := UrisOf(b);
    PackRow(ToLower(collection), ToLower(b.ownerAddress), w.user.value,
            b.name, b.symbol, b.description,
            if uris[5] != "" then uris[5] else uris[0], uris[..5], uris,
            w.encoding.value.packPriceWei, b.maxPacks, b.royaltyBps, ToLower(b.ownerAddress))
  }

  /** The reduced record for the fallback table. */
  function NftRowOf(p: PackRow): NftRow {
    NftRow(p.collectionAddress, p.ownerAddress, p.userId, p.name, p.symbol, p.description,
           p.packImageUri, p.maxPacks, p.packPriceWei, p.royaltyBps, p.royaltyRecipient)
  }

  /**
   * Best-effort persistence followed by the credit debit. The fallback insert
   * follows only an insert that returned an error (one that raised is caught
   * without fallback); neither insert affects the response. The debit is
   * awaited outside that guard, so an update that raises reaches the outer
   * catch.
   */
  function Persist(w: Inputs, txHash: string, collection: string): Outcome
    requires Admitted(w) && w.encoding.Ok?
  {
    var row := PackRowOf(w, collection);
    var inserts := [InsertPack(row)] + if w.packInsert == Rejected then [InsertNft(NftRowOf(row))] else [];
    var writes := inserts + [SetCredits(w.user.value, CreditsOf(w.profile) - CreditsRequired)];
    if w.debit.UpdateThrew? then Outcome(Response(500, Failure(ErrorText(w.debit.message))), writes)
    else Outcome(Response(200, Deployed(collection, txHash, CreditsRequired)), writes)
  }

  /** After the relay reports a hash: receipt, event, owner check, then persistence. */
  function Confirm(w: Inputs, txHash: string): Outcome
    requires Admitted(w) && w.encoding.Ok?
  {
    match w.receipt
    case ReceiptFailed(m) => Fail(500, ErrorText(m))
    case NoReceipt => Fail(502, "Transaction receipt not found")
    case Mined(logs) =>
      match FindCreated(logs)
      case None => Fail(502, "CollectionCreated event not found")
      case Some(event) =>
        var owner := w.body.value.ownerAddress;
        if !EqualsIgnoreCase(event.owner, owner) then Fail(502, MismatchMessage(owner, event.owner))
        else Persist(w, txHash, event.collection)
  }

  /** POST: the early-return chain, in the order the handler runs it. */
  function Decide(w: Inputs): (o: Outcome)
    ensures o.response.status == 200 <==> o.response.payload.Deployed?
    ensures o.response.payload.Deployed? ==> Admitted(w) && o.response.payload.creditsDeducted == CreditsRequired
    ensures o.writes != [] ==> Admitted(w) && w.encoding.Ok?
  {
    var missing := MissingEnv(w.env);
    if missing != [] then Fail(500, MissingEnvMessage(missing))
    else if w.body.Err? then Fail(500, ErrorText(w.body.error))
    else if !HasRequiredFields(w.body.value) then Fail(400, "Missing required fields")
    else if w.user.None? then Fail(401, "Unauthorized")
    else if !w.profile.Found? then Fail(400, "Profile not found")
    else if CreditsOf(w.profile) < CreditsRequired then Fail(402, "Insufficient credits")
    else if FirstUri(w.body.value.tokenUris) == "" then Fail(400, "No token image provided")
    else if w.encoding.Err? then Fail(500, ErrorText(w.encoding.error))
    else
      var submitted := SponsoredCall(w.submission, w.env.factoryAddress);
      if submitted.Err? then Fail(500, ErrorText(submitted.error))
      else
        var polled := Wait(w.status, w.latency, DefaultTimeout);
        if polled.Err? then Fail(500, ErrorText(polled.error))
        else Confirm(w, polled.value)
  }

  /**
   * The handler run step by step, calling the imperative URI normalisation
   * and polling loop; it returns what Decide specifies.
   */
  method Post(w: Inputs) returns (o: Outcome)
    ensures o == Decide(w)
  {
    var missing := MissingEnv(w.env);
    if missing != [] {
      return Fail(500, MissingEnvMessage(missing));
    }
    if w.body.Err? {
      return Fail(500, ErrorText(w.body.error));
    }
    var body := w.body.value;
    if !HasRequiredFields(body) {
      return Fail(400, "Missing required fields");
    }
    if w.user.None? {
      return Fail(401, "Unauthorized");
    }
    if !w.profile.Found? {
      return Fail(400, "Profile not found");
    }
    if CreditsOf(w.profile) < CreditsRequired {
      return Fail(402, "Insufficient credits");
    }
    var first := FirstUri(body.tokenUris);
    if first == "" {
      return Fail(400, "No token image provided");
    }
    var uris := NormalizeUris(first, body.tokenUris.items);
    if w.encoding.Err? {
      return Fail(500, ErrorText(w.encoding.error));
    }
    var submitted := SponsoredCall(w.submission, w.env.factoryAddress);
    if submitted.Err? {
      return Fail(500, ErrorText(submitted.error));
    }
    var polled := WaitForTask(w.status, w.latency, DefaultTimeout);
    if polled.Err? {
      return Fail(500, ErrorText(polled.error));
    }
    var txHash := polled.value;
    if w.receipt.ReceiptFailed? {
      return Fail(500, ErrorText(w.receipt.message));
    }
    if w.receipt.NoReceipt? {
      return Fail(502, "Transaction receipt not found");
    }
    var parsed := FindCreated(w.receipt.logs);
    if parsed.None? {
      return Fail(502, "CollectionCreated event not found");
    }
    var event := parsed.value;
    if !EqualsIgnoreCase(event.owner, body.ownerAddress) {
      return Fail(502, MismatchMessage(body.ownerAddress, event.owner));
    }
    var row := PackRow(ToLower(event.collection), ToLower(body.ownerAddress), w.user.value,
                       body.name, body.symbol, body.description,
                       if uris[5] != "" then uris[5] else uris[0], uris[..5], uris,
                       w.encoding.value.packPriceWei, body.maxPacks, body.royaltyBps, ToLower(body.ownerAddress));
    var writes := [InsertPack(row)];
    if w.packInsert == Rejected {
      writes := writes + [InsertNft(NftRowOf(row))];
    }
    writes := writes + [SetCredits(w.user.value, CreditsOf(w.profile) - CreditsRequired)];
    if w.debit.UpdateThrew? {
      return Outcome(Response(500, Failure(ErrorText(w.debit.message))), writes);
    }
    o := Outcome(Response(200, Deployed(event.collection, txHash, CreditsRequired)), writes);
  }
}
