/**
 * Properties of the wizard page, and how it fits the deploy endpoint: a
 * request from a ready form passes the endpoint's field and image checks
 * untouched by normalisation, and the page completes exactly when the
 * endpoint reports a deployment.
 */
module WizardProperties {
  import opened Wrappers
  import opened PackWizard
  import DeployRoute
  import DeployProperties

  /**
   * A ready form sends a name, a symbol, an owner and six non-empty URIs, so
   * the endpoint's required-field and token-image checks pass and its
   * normalisation leaves the URIs as sent.
   */
  lemma ReadyRequestPassesRouteChecks(owner: Option<string>, hasUser: bool, slots: seq<Option<string>>,
                                      useSameImage: bool, name: string, symbol: string, description: string,
                                      packPriceEth: string, maxPacks: int, royaltyBps: int)
    requires |slots| == Slots && ReadyToDeploy(owner, hasUser, slots, useSameImage, name, symbol)
    ensures var b := RequestBody(owner.value, slots, useSameImage, name, symbol, description,
                                 packPriceEth, maxPacks, royaltyBps);
            DeployRoute.HasRequiredFields(b) && DeployRoute.FirstUri(b.tokenUris) != "" &&
            DeployRoute.UrisOf(b) == TokenUris(slots, useSameImage)
  {
    var uris := TokenUris(slots, useSameImage);
    assert DeployRoute.Normalized(uris[0], uris) == uris;
  }

  /** Such a request is never answered "Missing required fields" or "No token image provided". */
  lemma ReadyRequestNotRejectedAsInput(w: DeployRoute.Inputs, owner: Option<string>, hasUser: bool,
                                       slots: seq<Option<string>>, useSameImage: bool, name: string, symbol: string)
    requires |slots| == Slots && ReadyToDeploy(owner, hasUser, slots, useSameImage, name, symbol)
    requires w.body.Ok? && w.body.value.tokenUris == DeployRoute.UriArray(TokenUris(slots, useSameImage))
    requires w.body.value.name == name && w.body.value.symbol == symbol && w.body.value.ownerAddress == owner.value
    ensures DeployRoute.Decide(w).response != DeployRoute.Response(400, DeployRoute.Failure("Missing required fields"))
    ensures DeployRoute.Decide(w).response != DeployRoute.Response(400, DeployRoute.Failure("No token image provided"))
  {
    var uris := TokenUris(slots, useSameImage);
    assert DeployRoute.FirstUri(w.body.value.tokenUris) == uris[0];
    if DeployRoute.MissingEnv(w.env) != [] {
      DeployProperties.EnvCheckComesFirst(w);
    }
  }

  /** The page reaches `complete` exactly when the endpoint reports a deployment, with its address and hash. */
  lemma ServerReplyDrivesStep(w: DeployRoute.Inputs)
    ensures var response := DeployRoute.Decide(w).response;
            Accepted(ReplyOf(response)) <==> response.payload.Deployed?
    ensures var response := DeployRoute.Decide(w).response;
            response.payload.Deployed? ==>
              ReplyOf(response).collectionAddress == response.payload.collectionAddress &&
              ReplyOf(response).transactionHash == response.payload.transactionHash
  {
    if DeployRoute.Decide(w).response.payload.Deployed? {
      DeployProperties.SuccessIsConfirmed(w);
    }
  }

  /** A shared image uploaded to any NFT slot fills the form's images and becomes all six token URIs. */
  lemma SharedUploadFillsAllUris(slots: seq<Option<string>>, url: string, index: nat)
    requires |slots| == Slots && url != "" && index != CoverSlot
    ensures var placed := PlaceUpload(slots, url, index, true);
            HasUpload(placed) && TokenUris(placed, true) == [url, url, url, url, url, url]
  {
    var placed := PlaceUpload(slots, url, index, true);
    assert Filled(placed[0]);
  }

  /**
   * A form with a wallet, a signed-in user, a name, a symbol and one shared
   * image uploaded to the first slot is ready to deploy.
   */
  lemma SharedUploadMakesFormReady(owner: Option<string>, slots: seq<Option<string>>, url: string,
                                   name: string, symbol: string)
    requires |slots| == Slots && Filled(owner) && url != "" && name != "" && symbol != ""
    ensures ReadyToDeploy(owner, true, PlaceUpload(slots, url, 0, true), true, name, symbol)
  {
    assert Filled(PlaceUpload(slots, url, 0, true)[0]);
  }

  /** A cover upload leaves the NFT slots alone and becomes the sixth token URI. */
  lemma CoverUploadIsSixthUri(slots: seq<Option<string>>, url: string, useSameImage: bool)
    requires |slots| == Slots && url != ""
    ensures var placed := PlaceUpload(slots, url, CoverSlot, useSameImage);
            placed[..NftSlots] == slots[..NftSlots] && HasUpload(placed) &&
            TokenUris(placed, useSameImage)[CoverSlot] == url
  {
    var placed := PlaceUpload(slots, url, CoverSlot, useSameImage);
    assert Filled(placed[CoverSlot]);
  }

  /** Separate images: once all five NFT slots are filled each token URI is its own slot's, and the cover falls back to slot 0. */
  lemma SeparateImagesKeepTheirSlots(slots: seq<Option<string>>)
    requires |slots| == Slots && forall i :: 0 <= i < NftSlots ==> Filled(slots[i])
    ensures HasUpload(slots)
    ensures forall i :: 0 <= i < NftSlots ==> TokenUris(slots, false)[i] == slots[i].value
    ensures !Filled(slots[CoverSlot]) ==> TokenUris(slots, false)[CoverSlot] == slots[0].value
  {
    assert Filled(slots[0]);
    assert FirstFilled(slots) == slots[0];
  }

  /** An embedded wallet with an address wins over a connected account. */
  lemma EmbeddedWalletWins(wallets: seq<ConnectedWallet>, account: Option<string>, k: nat)
    requires k < |wallets| && IsEmbedded(wallets[k]) && Filled(wallets[k].address)
    requires forall i :: 0 <= i < k ==> !IsEmbedded(wallets[i])
    ensures OwnerAddress(wallets, account) == wallets[k].address
  {
  }

  /** A payload of 2 MiB plus one character goes out as a full chunk and a one-character chunk. */
  lemma ChunkBoundary(data: string)
    requires |data| == ChunkSize + 1
    ensures Chunks(data) == [data[..ChunkSize], data[ChunkSize..]]
  {
    assert |data[ChunkSize..]| == 1;
  }
}
