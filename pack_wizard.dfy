/**
 * The pack-collection wizard page: the six artwork slots, how an upload is
 * chunked and placed, when the form may deploy, the request it sends, and the
 * page state a deploy leaves behind. React state is the class Wizard; the
 * browser, the upload endpoint and the deploy endpoint are oracles.
 */
module PackWizard {
  import opened Wrappers
  import DeployRoute

  datatype Step = Wallet | Images | Form | Review | Deploying | Complete

  const Slots: nat := 6
  const CoverSlot: nat := 5
  const NftSlots: nat := 5
  const ChunkSize: nat := 2 * 1024 * 1024
  const CreditsRequired: int := 100

  const EmptySlots: seq<Option<string>> := [None, None, None, None, None, None]

  /** A slot or value JavaScript treats as truthy: present and not "". */
  predicate Filled(slot: Option<string>) {
    slot.Some? && slot.value != ""
  }

  predicate HasUpload(slots: seq<Option<string>>) {
    exists i :: 0 <= i < |slots| && Filled(slots[i])
  }

  /** `slots.find(Boolean)` */
  function FirstFilled(slots: seq<Option<string>>): (r: Option<string>)
    ensures r.Some? <==> HasUpload(slots)
    ensures r.Some? ==> r.value != ""
    ensures r.Some? ==>
              exists i :: 0 <= i < |slots| && slots[i] == r && forall j :: 0 <= j < i ==> !Filled(slots[j])
  {
    if slots == [] then None
    else if Filled(slots[0]) then slots[0]
    else
      var r := FirstFilled(slots[1..]);
      assert forall i :: 1 <= i < |slots| ==> slots[i] == slots[1..][i - 1];
      assert r.Some? ==> exists i :: 0 <= i < |slots| && slots[i] == r && forall j :: 0 <= j < i ==> !Filled(slots[j]) by {
        if r.Some? {
          var i :| 0 <= i < |slots[1..]| && slots[1..][i] == r && forall j :: 0 <= j < i ==> !Filled(slots[1..][j]);
          assert slots[i + 1] == r && forall j :: 0 <= j < i + 1 ==> !Filled(slots[j]);
        }
      }
      r
  }

  /** `slot || fallback` */
  function OrElse(slot: Option<string>, fallback: string): string {
    if Filled(slot) then slot.value else fallback
  }

  /**
   * The six token URIs handleDeploy sends. With one shared image the five NFT
   * slots repeat the first uploaded URL and the cover slot keeps its own
   * upload if any; otherwise every empty slot falls back to the first URL.
   */
  function TokenUris(slots: seq<Option<string>>, useSameImage: bool): (uris: seq<string>)
    requires |slots| == Slots && HasUpload(slots)
    ensures |uris| == Slots
    ensures forall i :: 0 <= i < Slots ==> uris[i] != ""
    ensures useSameImage ==> forall i :: 0 <= i < NftSlots ==> uris[i] == FirstFilled(slots).value
    ensures useSameImage ==> uris[CoverSlot] == OrElse(slots[CoverSlot], FirstFilled(slots).value)
    ensures !useSameImage ==> forall i :: 0 <= i < Slots ==>
              uris[i] == (if Filled(slots[i]) then slots[i].value else FirstFilled(slots).value)
  {
    var first := FirstFilled(slots).value;
    if useSameImage then [first, first, first, first, first, OrElse(slots[CoverSlot], first)]
    else seq(Slots, i requires 0 <= i < Slots => OrElse(slots[i], first))
  }

  /**
   * readyToDeploy: a wallet address and a signed-in user, at least one
   * uploaded URL, the five NFT slots filled unless one image is shared, and a
   * name and a symbol.
   */
  function ReadyToDeploy(owner: Option<string>, hasUser: bool, slots: seq<Option<string>>,
                         useSameImage: bool, name: string, symbol: string): (ready: bool)
    requires |slots| == Slots
    ensures ready ==> HasUpload(slots) && Filled(owner) && hasUser
    ensures ready && !useSameImage ==>
              forall i :: 0 <= i < NftSlots ==> slots[i] == Some(TokenUris(slots, false)[i])
    ensures !HasUpload(slots) || name == "" || symbol == "" ==> !ready
    ensures (Filled(owner) && hasUser && HasUpload(slots) && name != "" && symbol != "" &&
             (useSameImage || forall i :: 0 <= i < NftSlots ==> Filled(slots[i]))) ==> ready
  {
    Filled(owner) && hasUser && HasUpload(slots) &&
    (useSameImage || forall i :: 0 <= i < NftSlots ==> Filled(slots[i])) &&
    name != "" && symbol != ""
  }

  /** hasEnoughCredits: the page's hint uses the endpoint's credit threshold. */
  function HasEnoughCredits(credits: int): (enough: bool)
    ensures enough <==> !(credits < DeployRoute.CreditsRequired)
  {
    credits >= CreditsRequired
  }

  /** A wallet as the wallet provider lists it. */
  datatype ConnectedWallet = ConnectedWallet(clientType: string, address: Option<string>)

  predicate IsEmbedded(w: ConnectedWallet) {
    w.clientType == "privy" || w.clientType == "privy-v2"
  }

  /** The address of the first embedded wallet, if there is one. */
  function EmbeddedAddress(wallets: seq<ConnectedWallet>): (r: Option<string>)
    ensures r.Some? ==> exists i :: 0 <= i < |wallets| && IsEmbedded(wallets[i]) && wallets[i].address == r
    ensures (forall i :: 0 <= i < |wallets| ==> !IsEmbedded(wallets[i])) ==> r.None?
    ensures forall k :: (0 <= k < |wallets| && IsEmbedded(wallets[k]) &&
                         forall i :: 0 <= i < k ==> !IsEmbedded(wallets[i])) ==> r == wallets[k].address
  {
    if wallets == [] then None
    else if IsEmbedded(wallets[0]) then wallets[0].address
    else
      var r := EmbeddedAddress(wallets[1..]);
      assert forall i :: 1 <= i < |wallets| ==> wallets[i] == wallets[1..][i - 1];
      r
  }

  /**
   * finalWalletAddress: the embedded wallet, else the connected account, else
   * the first listed wallet, else none; an empty address counts as none.
   */
  function OwnerAddress(wallets: seq<ConnectedWallet>, account: Option<string>): (r: Option<string>)
    ensures r.Some? ==> Filled(r)
    ensures Filled(EmbeddedAddress(wallets)) ==> r == EmbeddedAddress(wallets)
    ensures !Filled(EmbeddedAddress(wallets)) && Filled(account) ==> r == account
    ensures r.Some? ==> r == account || exists i :: 0 <= i < |wallets| && wallets[i].address == r
    ensures !Filled(EmbeddedAddress(wallets)) && !Filled(account) && wallets != [] && Filled(wallets[0].address) ==>
              r == wallets[0].address
    ensures r.None? <==> !Filled(EmbeddedAddress(wallets)) && !Filled(account) &&
                         (wallets == [] || !Filled(wallets[0].address))
  {
    var embedded := EmbeddedAddress(wallets);
    if Filled(embedded) then embedded
    else if Filled(account) then account
    else if wallets != [] && Filled(wallets[0].address) then wallets[0].address
    else None
  }

  /* ---------- Upload ---------- */

  /** `dataUrl.split(',')[1]`: the text between the first comma and the next one; None without a comma. */
  function DataUrlPayload(dataUrl: string): Option<string> {
    if dataUrl == [] then None
    else if dataUrl[0] == ',' then Some(UpToComma(dataUrl[1..]))
    else DataUrlPayload(dataUrl[1..])
  }

  function UpToComma(s: string): string {
    if s == [] || s[0] == ',' then [] else [s[0]] + UpToComma(s[1..])
  }

  lemma {:induction false} UpToCommaWhole(s: string)
    requires ',' !in s
    ensures UpToComma(s) == s
  {
    if s != [] {
      assert ',' !in s[1..] by {
        assert forall c :: c in s[1..] ==> c in s;
      }
      UpToCommaWhole(s[1..]);
    }
  }

  /** A data URL "header,payload" yields exactly its payload. */
  lemma {:induction false} DataUrlYieldsPayload(header: string, payload: string)
    requires ',' !in header && ',' !in payload
    ensures DataUrlPayload(header + "," + payload) == Some(payload)
  {
    if header == [] {
      assert header + "," + payload == [','] + payload;
      assert ([','] + payload)[1..] == payload;
      UpToCommaWhole(payload);
    } else {
      assert (header + "," + payload)[1..] == header[1..] + "," + payload;
      assert ',' !in header[1..] by {
        assert forall c :: c in header[1..] ==> c in header;
      }
      DataUrlYieldsPayload(header[1..], payload);
    }
  }

  /** The base64 text cut into pieces of ChunkSize characters, the last one shorter. */
  function Chunks(data: string): seq<string>
    decreases |data|
  {
    if data == [] then []
    else if |data| <= ChunkSize then [data]
    else [data[..ChunkSize]] + Chunks(data[ChunkSize..])
  }

  function Concat(parts: seq<string>): string {
    if parts == [] then "" else parts[0] + Concat(parts[1..])
  }

  /** Chunking partitions its input: the pieces rebuild it, none is empty or too long, all but the last are full. */
  lemma {:induction false} ChunksPartition(data: string)
    ensures Concat(Chunks(data)) == data
    ensures forall i :: 0 <= i < |Chunks(data)| ==> 0 < |Chunks(data)[i]| <= ChunkSize
    ensures forall i :: 0 <= i < |Chunks(data)| - 1 ==> |Chunks(data)[i]| == ChunkSize
    decreases |data|
  {
    if |data| > ChunkSize {
      var head, rest := data[..ChunkSize], Chunks(data[ChunkSize..]);
      ChunksPartition(data[ChunkSize..]);
      assert ([head] + rest)[1..] == rest;
      assert Concat([head] + rest) == head + Concat(rest);
      assert head + data[ChunkSize..] == data;
      assert forall i :: 1 <= i < |[head] + rest| ==> ([head] + rest)[i] == rest[i - 1];
    } else if data != [] {
      assert Concat([data]) == data + Concat([]);
    }
  }

  /** The chunking loop, proved to compute Chunks. */
  method SplitChunks(data: string) returns (chunks: seq<string>)
    ensures chunks == Chunks(data)
  {
    chunks := [];
    var i := 0;
    while i < |data|
      invariant chunks + Chunks(if i <= |data| then data[i..] else "") == Chunks(data)
      decreases |data| - i
    {
      var end := if i + ChunkSize < |data| then i + ChunkSize else |data|;
      ghost var rest := data[i..];
      if |rest| > ChunkSize {
        assert rest[..ChunkSize] == data[i..end] && rest[ChunkSize..] == data[i + ChunkSize..];
      } else {
        assert rest == data[i..end];
        assert data[|data|..] == "";
      }
      chunks := chunks + [data[i..end]];
      i := i + ChunkSize;
    }
    assert data[|data|..] == "";
  }

  /** What the upload endpoint answers to one chunk: a failure, or success with a URL ("" when absent). */
  datatype ChunkReply = ChunkFailed | ChunkStored(pinataUrl: string)

  predicate AllStored(replies: nat -> ChunkReply, n: nat) {
    forall i :: 0 <= i < n ==> replies(i).ChunkStored?
  }

  /** The last non-empty URL among the replies to chunks 0..n-1. */
  function LastUrl(replies: nat -> ChunkReply, n: nat): Option<string> {
    if n == 0 then None
    else if replies(n - 1).ChunkStored? && replies(n - 1).pinataUrl != "" then Some(replies(n - 1).pinataUrl)
    else LastUrl(replies, n - 1)
  }

  /** Uploading n chunks in order: the first failure aborts; without any URL the upload is incomplete. */
  function ChunkUpload(replies: nat -> ChunkReply, n: nat): Result<string> {
    if !AllStored(replies, n) then Err("Chunk upload failed")
    else match LastUrl(replies, n)
      case None => Err("Upload incomplete")
      case Some(url) => Ok(url)
  }

  /** The sequential chunk loop, proved to compute ChunkUpload. */
  method UploadChunks(n: nat, replies: nat -> ChunkReply) returns (r: Result<string>)
    ensures r == ChunkUpload(replies, n)
  {
    var finalUrl: Option<string> := None;
    for i := 0 to n
      invariant AllStored(replies, i)
      invariant finalUrl == LastUrl(replies, i)
    {
      var reply := replies(i);
      if reply.ChunkFailed? {
        return Err("Chunk upload failed");
      }
      if reply.pinataUrl != "" {
        finalUrl := Some(reply.pinataUrl);
      }
    }
    if finalUrl.None? {
      return Err("Upload incomplete");
    }
    r := Ok(finalUrl.value);
  }

  lemma {:induction false} LastUrlIsLastNonEmpty(replies: nat -> ChunkReply, n: nat, url: string)
    requires LastUrl(replies, n) == Some(url)
    ensures url != ""
    ensures exists i :: 0 <= i < n && replies(i) == ChunkStored(url) &&
              forall j :: i < j < n ==> !(replies(j).ChunkStored? && replies(j).pinataUrl != "")
  {
    if !(replies(n - 1).ChunkStored? && replies(n - 1).pinataUrl != "") {
      LastUrlIsLastNonEmpty(replies, n - 1, url);
    }
  }

  /**
   * A completed upload stored every chunk, and its URL is the last non-empty
   * one the endpoint returned.
   */
  lemma UploadUrlIsLastNonEmpty(replies: nat -> ChunkReply, n: nat, url: string)
    requires ChunkUpload(replies, n) == Ok(url)
    ensures AllStored(replies, n) && url != ""
    ensures exists i :: 0 <= i < n && replies(i) == ChunkStored(url) &&
              forall j :: i < j < n ==> replies(j) == ChunkStored("")
  {
    LastUrlIsLastNonEmpty(replies, n, url);
  }

  lemma {:induction false} LastUrlPresent(replies: nat -> ChunkReply, n: nat, i: nat)
    requires i < n && replies(i).ChunkStored? && replies(i).pinataUrl != ""
    ensures LastUrl(replies, n).Some?
  {
    if i < n - 1 && !(replies(n - 1).ChunkStored? && replies(n - 1).pinataUrl != "") {
      LastUrlPresent(replies, n - 1, i);
    }
  }

  /** Conversely, an upload whose every chunk was stored and that got some URL completes. */
  lemma UploadCompletesWhenStored(replies: nat -> ChunkReply, n: nat, i: nat)
    requires AllStored(replies, n)
    requires i < n && replies(i).ChunkStored? && replies(i).pinataUrl != ""
    ensures ChunkUpload(replies, n).Ok?
  {
    LastUrlPresent(replies, n, i);
  }

  /** An empty payload has no chunks, so it never yields a URL. */
  lemma EmptyPayloadIsIncomplete(replies: nat -> ChunkReply)
    ensures Chunks("") == [] && ChunkUpload(replies, |Chunks("")|) == Err("Upload incomplete")
  {
  }

  /** How reading the file went. */
  datatype FileRead = ReadFailed | DataUrl(text: string)

  /** The pinned URL an upload ends with, or why it failed. */
  function UploadOutcome(file: FileRead, replies: nat -> ChunkReply): (r: Result<string>)
    ensures file.ReadFailed? ==> r == Err("Failed to read file")
    ensures r.Ok? ==> file.DataUrl? && DataUrlPayload(file.text).Some? && DataUrlPayload(file.text).value != ""
    ensures r.Ok? ==> r.value != ""
  {
    match file
    case ReadFailed => Err("Failed to read file")
    case DataUrl(text) =>
      match DataUrlPayload(text)
      case None => Err("Failed to upload image to IPFS")
      case Some(payload) =>
        var n := |Chunks(payload)|;
        var r := ChunkUpload(replies, n);
        assert r.Ok? ==> r.value != "" by {
          if r.Ok? {
            UploadUrlIsLastNonEmpty(replies, n, r.value);
          }
        }
        r
  }

  /**
   * The slot update after an upload: a shared image at a non-cover index fills
   * all six slots, anything else sets slot `index` alone.
   */
  function PlaceUpload(slots: seq<Option<string>>, value: string, index: nat, useSameImage: bool): (r: seq<Option<string>>)
    requires |slots| == Slots
    ensures |r| == Slots
    ensures useSameImage && index != CoverSlot ==> forall i :: 0 <= i < Slots ==> r[i] == Some(value)
    ensures !(useSameImage && index != CoverSlot) ==>
              forall i :: 0 <= i < Slots ==> r[i] == if i == index then Some(value) else slots[i]
  {
    if useSameImage && index != CoverSlot then seq(Slots, _ => Some(value))
    else seq(Slots, i requires 0 <= i < Slots => if i == index then Some(value) else slots[i])
  }

  /* ---------- Deploy ---------- */

  /** The deploy endpoint's answer as the page sees it; NoReply when the request or its JSON failed. */
  datatype DeployReply = NoReply | Reply(ok: bool, success: bool, collectionAddress: string, transactionHash: string)

  /** `res.ok && result.success` */
  predicate Accepted(reply: DeployReply) {
    reply.Reply? && reply.ok && reply.success
  }

  /** The endpoint's response as the page receives it. */
  function ReplyOf(response: DeployRoute.Response): DeployReply {
    match response.payload
    case Deployed(address, hash, _) => Reply(200 <= response.status < 300, true, address, hash)
    case Failure(_) => Reply(200 <= response.status < 300, false, "", "")
  }

  /** The JSON body handleDeploy posts. */
  function RequestBody(owner: string, slots: seq<Option<string>>, useSameImage: bool,
                       name: string, symbol: string, description: string,
                       packPriceEth: string, maxPacks: int, royaltyBps: int): DeployRoute.Body
    requires |slots| == Slots && HasUpload(slots)
  {
    DeployRoute.Body(name, symbol, description, DeployRoute.UriArray(TokenUris(slots, useSameImage)),
                     packPriceEth, maxPacks, royaltyBps, owner)
  }

  /** The wizard's page state. */
  class Wizard {
    var step: Step
    var user: Option<string>
    var credits: int
    var useSameImage: bool
    var uploadedImages: seq<Option<string>>
    var pinataUrls: seq<Option<string>>
    var uploadingIndex: Option<nat>
    var name: string
    var symbol: string
    var description: string
    var packPriceEth: string
    var maxPacks: int
    var royaltyBps: int
    var collectionAddress: Option<string>
    var deploymentTxHash: Option<string>
    var loading: bool

    ghost predicate Valid()
      reads this
    {
      |uploadedImages| == Slots && |pinataUrls| == Slots
    }

    predicate Ready(owner: Option<string>)
      reads this
      requires Valid()
    {
      ReadyToDeploy(owner, user.Some?, pinataUrls, useSameImage, name, symbol)
    }

    /** The initial state of every piece of page state. */
    constructor ()
      ensures Valid()
      ensures step == Wallet && user == None && credits == 0 && useSameImage
      ensures uploadedImages == EmptySlots && pinataUrls == EmptySlots && uploadingIndex == None
      ensures name == "" && symbol == "" && description == ""
      ensures packPriceEth == "0" && maxPacks == 100 && royaltyBps == 500
      ensures collectionAddress == None && deploymentTxHash == None && !loading
    {
      step := Wallet;
      user := None;
      credits := 0;
      useSameImage := true;
      uploadedImages := EmptySlots;
      pinataUrls := EmptySlots;
      uploadingIndex := None;
      name, symbol, description := "", "", "";
      packPriceEth, maxPacks, royaltyBps := "0", 100, 500;
      collectionAddress, deploymentTxHash := None, None;
      loading := false;
    }

    /** The mount effect: remember the signed-in user and, when the profile has a number, its credits. */
    method LoadAccount(signedIn: Option<string>, profileCredits: Option<int>)
      modifies this`user, this`credits
      ensures signedIn.None? ==> user == old(user) && credits == old(credits)
      ensures signedIn.Some? ==> user == signedIn
      ensures signedIn.Some? && profileCredits.Some? ==> credits == profileCredits.value
      ensures profileCredits.None? ==> credits == old(credits)
    {
      if signedIn.None? {
        return;
      }
      user := signedIn;
      if profileCredits.Some? {
        credits := profileCredits.value;
      }
    }

    /**
     * handleImageUpload: read the file, send its base64 payload chunk by
     * chunk, and on success place the object URL and the pinned URL in the
     * slots and move to the form. A failed upload leaves the slots and the
     * step alone.
     */
    method HandleImageUpload(file: FileRead, replies: nat -> ChunkReply, objectUrl: string, index: nat)
      requires Valid()
      modifies this`uploadingIndex, this`uploadedImages, this`pinataUrls, this`step
      ensures Valid()
      ensures uploadingIndex == None
      ensures UploadOutcome(file, replies).Ok? ==>
                pinataUrls == PlaceUpload(old(pinataUrls), UploadOutcome(file, replies).value, index, useSameImage) &&
                uploadedImages == PlaceUpload(old(uploadedImages), objectUrl, index, useSameImage) &&
                step == Form
      ensures UploadOutcome(file, replies).Err? ==>
                pinataUrls == old(pinataUrls) && uploadedImages == old(uploadedImages) && step == old(step)
    {
      uploadingIndex := Some(index);
      if file.DataUrl? {
        var payload := DataUrlPayload(file.text);
        if payload.Some? {
          var chunks := SplitChunks(payload.value);
          var url := UploadChunks(|chunks|, replies);
          if url.Ok? {
            uploadedImages := PlaceUpload(uploadedImages, objectUrl, index, useSameImage);
            pinataUrls := PlaceUpload(pinataUrls, url.value, index, useSameImage);
            step := Form;
          }
        }
      }
      uploadingIndex := None;
    }

    /**
     * handleDeploy: nothing happens unless the form is ready; otherwise post
     * the request and end in `complete` with the reported address and hash,
     * or back in `form`, never still loading.
     */
    method HandleDeploy(owner: Option<string>, session: Option<string>, reply: DeployReply)
      returns (sent: Option<DeployRoute.Body>)
      requires Valid()
      modifies this`loading, this`step, this`collectionAddress, this`deploymentTxHash
      ensures Valid()
      ensures !Ready(owner) ==> sent == None && unchanged(this)
      ensures Ready(owner) ==> !loading
      ensures Ready(owner) && !Filled(session) ==>
                sent == None && step == Form &&
                collectionAddress == old(collectionAddress) && deploymentTxHash == old(deploymentTxHash)
      ensures Ready(owner) && Filled(session) ==>
                sent == Some(RequestBody(owner.value, pinataUrls, useSameImage, name, symbol, description,
                                         packPriceEth, maxPacks, royaltyBps))
      ensures Ready(owner) && Filled(session) && Accepted(reply) ==>
                step == Complete && collectionAddress == Some(reply.collectionAddress) &&
                deploymentTxHash == Some(reply.transactionHash)
      ensures Ready(owner) && Filled(session) && !Accepted(reply) ==>
                step == Form && collectionAddress == old(collectionAddress) && deploymentTxHash == old(deploymentTxHash)
    {
      if !Ready(owner) {
        return None;
      }
      loading := true;
      step := Deploying;
      if !Filled(session) {
        // "Auth required" is raised and caught: back to the form
        step := Form;
        loading := false;
        return None;
      }
      sent := Some(RequestBody(owner.value, pinataUrls, useSameImage, name, symbol, description,
                               packPriceEth, maxPacks, royaltyBps));
      if Accepted(reply) {
        collectionAddress := Some(reply.collectionAddress);
        deploymentTxHash := Some(reply.transactionHash);
        step := Complete;
      } else {
        step := Form;
      }
      loading := false;
    }
  }
}
