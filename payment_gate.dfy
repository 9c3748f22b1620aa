/** The client half of the HTTP 402 exchange in `components/PaymentGate.tsx` (`handlePay`).
    The handler is split where it suspends: `BeginPay` runs up to the first `fetch`,
    `OnContentResponse` from its response up to opening the wallet signer, and the signer's
    two callbacks are `OnFinish` and `OnCancel`. Everything the handler does that another party
    can observe (toasts, requests, the signer, `onUnlocked`) is appended to `effects`, the record
    of the current attempt. Responses, the header decoder and the signer's answer are inputs. */
module PaymentGate {
  import opened Options

  /** The fields of a JSON body the handler reads; `document` stands for the rest of the object,
      which is passed on untouched. */
  datatype Payload = Payload(payTo: Option<string>, maxAmountRequired: Option<nat>, document: string)

  /** A response: its status, its `payment-required` header, and its body, `None` when `json()` rejects. */
  datatype HttpResponse = HttpResponse(status: int, paymentRequired: Option<string>, body: Option<Payload>)

  /** What a `fetch` produced: a transport exception or a response. */
  datatype FetchResult = NetworkError | Received(response: HttpResponse)

  /** `response.ok` */
  predicate IsOk(status: int) {
    200 <= status <= 299
  }

  /** The three requests the handler sends: the gated content, its preview, and the verification. */
  datatype Request = ContentRequest | PreviewRequest | VerifyRequest(txId: string, payerAddress: string)

  datatype Level = ErrorToast | SuccessToast | InfoToast

  datatype Effect =
    | Toast(level: Level, message: string)
    | Fetch(request: Request)
    | OpenTransfer(recipient: string, amount: nat, memo: string, network: string)
    | Unlock(content: Payload, txId: Option<string>)   // `onUnlocked(content)`, or `{ ...preview, txId }`

  /** Where the attempt stands: `Fetching` waits for the content response, `AwaitingSigner` for
      the wallet; both remember the payer address the attempt started with. */
  datatype Phase = Idle | Fetching(payer: string) | AwaitingSigner(payer: string)

  datatype Transfer = Transfer(recipient: string, amount: nat)

  /** A truthy amount: present and not zero. */
  predicate TruthyAmount(a: Option<nat>) {
    a.Some? && a.value != 0
  }

  /** `s.slice(0, n)` */
  function Prefix(s: string, n: nat): string {
    if |s| <= n then s else s[..n]
  }

  const ConnectFirst := "Wallet not connected"
  const InitiateFailed := "Failed to initiate payment. Is your wallet extension installed?"
  const Cancelled := "Payment cancelled"
  const Unlocking := "Payment sent! Content unlocking..."
  const RefreshLater := "Payment sent successfully. Refresh to see your content."
  /** The network the signer is always opened on. */
  const Testnet := "testnet"

  /** The recipient and micro-STX amount the signer is opened with, by where they come from:
      the content's own defaults, the decoded `payment-required` header, or (when the header is
      there but does not decode) the response body. */
  function Challenge(response: HttpResponse, decode: string -> Option<Payload>,
                     creatorAddress: string, convertedPrice: nat): Transfer
  {
    var defaults := Transfer(creatorAddress, convertedPrice);
    if response.status != 402 || !Truthy(response.paymentRequired) then defaults
    else match decode(response.paymentRequired.value)
      case Some(req) =>
        Transfer(if Truthy(req.payTo) then req.payTo.value else creatorAddress,
                 if TruthyAmount(req.maxAmountRequired) then req.maxAmountRequired.value else convertedPrice)
      case None =>
        var payTo := if response.body.Some? && Truthy(response.body.value.payTo)
                     then response.body.value.payTo.value else creatorAddress;
        var amount := if response.body.Some? && TruthyAmount(response.body.value.maxAmountRequired)
                      then response.body.value.maxAmountRequired.value else convertedPrice;
        Transfer(payTo, amount)
  }

  /** Without a 402, or with a 402 that carries no header, the defaults are kept whatever the body says. */
  lemma ChallengeDefaults(response: HttpResponse, decode: string -> Option<Payload>, creatorAddress: string, convertedPrice: nat)
    requires response.status != 402 || !Truthy(response.paymentRequired)
    ensures Challenge(response, decode, creatorAddress, convertedPrice) == Transfer(creatorAddress, convertedPrice)
  {
  }

  /** A decodable header decides both fields, each falling back to its default when falsy; the body is not read. */
  lemma ChallengeFromHeader(response: HttpResponse, decode: string -> Option<Payload>, creatorAddress: string, convertedPrice: nat)
    requires response.status == 402 && Truthy(response.paymentRequired)
    requires decode(response.paymentRequired.value).Some?
    ensures var req := decode(response.paymentRequired.value).value;
      var t := Challenge(response, decode, creatorAddress, convertedPrice);
      && (Truthy(req.payTo) ==> t.recipient == req.payTo.value)
      && (!Truthy(req.payTo) ==> t.recipient == creatorAddress)
      && (TruthyAmount(req.maxAmountRequired) ==> t.amount == req.maxAmountRequired.value)
      && (!TruthyAmount(req.maxAmountRequired) ==> t.amount == convertedPrice)
      && forall b :: Challenge(response.(body := b), decode, creatorAddress, convertedPrice) == t
  {
  }

  /** A header that does not decode: only the body fields that are present override the defaults. */
  lemma ChallengeFromBody(response: HttpResponse, decode: string -> Option<Payload>, creatorAddress: string, convertedPrice: nat)
    requires response.status == 402 && Truthy(response.paymentRequired)
    requires decode(response.paymentRequired.value).None?
    ensures var t := Challenge(response, decode, creatorAddress, convertedPrice);
      && (response.body.None? ==> t == Transfer(creatorAddress, convertedPrice))
      && (response.body.Some? && Truthy(response.body.value.payTo) ==> t.recipient == response.body.value.payTo.value)
      && (response.body.Some? && !Truthy(response.body.value.payTo) ==> t.recipient == creatorAddress)
      && (response.body.Some? && TruthyAmount(response.body.value.maxAmountRequired) ==>
            t.amount == response.body.value.maxAmountRequired.value)
      && (response.body.Some? && !TruthyAmount(response.body.value.maxAmountRequired) ==> t.amount == convertedPrice)
  {
  }

  /** The ordering guarantees of one attempt: it starts with the content request; the signer is
      opened at most once and only after that request; a verification is requested only after
      the signer was opened; content is unlocked at most once. */
  ghost predicate Ordered(e: seq<Effect>) {
    && (forall i, j :: 0 <= i < j < |e| && e[i].OpenTransfer? ==> !e[j].OpenTransfer?)
    && (forall i, j :: 0 <= i < j < |e| && e[i].Unlock? ==> !e[j].Unlock?)
    && (forall j :: 0 <= j < |e| && e[j].OpenTransfer? ==> 0 < j && e[0] == Fetch(ContentRequest))
    && (forall j :: 0 <= j < |e| && e[j].Fetch? && e[j].request.VerifyRequest? ==>
          exists i :: 0 <= i < j && e[i].OpenTransfer?)
  }

  predicate NoUnlock(e: seq<Effect>) {
    forall i :: 0 <= i < |e| ==> !e[i].Unlock?
  }

  predicate NoVerify(e: seq<Effect>) {
    forall i :: 0 <= i < |e| ==> !(e[i].Fetch? && e[i].request.VerifyRequest?)
  }

  predicate NoOpen(e: seq<Effect>) {
    forall i :: 0 <= i < |e| ==> !e[i].OpenTransfer?
  }

  predicate AtMostOneUnlock(e: seq<Effect>) {
    forall i, j :: 0 <= i < j < |e| && e[i].Unlock? ==> !e[j].Unlock?
  }

  /** Appending effects that open no signer keeps an attempt ordered, provided any verification
      among them comes after an opened signer and no second unlock is added. */
  lemma {:induction false} AppendKeepsOrder(e: seq<Effect>, t: seq<Effect>)
    requires Ordered(e) && NoOpen(t) && AtMostOneUnlock(t)
    requires NoVerify(t) || exists i :: 0 <= i < |e| && e[i].OpenTransfer?
    requires NoUnlock(e) || NoUnlock(t)
    ensures Ordered(e + t)
  {
    var et := e + t;
    forall j | 0 <= j < |et| && et[j].Fetch? && et[j].request.VerifyRequest?
      ensures exists i :: 0 <= i < j && et[i].OpenTransfer?
    {
      if j >= |e| {
        assert t[j - |e|] == et[j];
        var i :| 0 <= i < |e| && e[i].OpenTransfer?;
        assert et[i] == e[i];
      } else {
        assert et[j] == e[j];
        var i :| 0 <= i < j && e[i].OpenTransfer?;
        assert et[i] == e[i];
      }
    }
    forall i, j | 0 <= i < j < |et| && et[i].Unlock? ensures !et[j].Unlock? {
      if j >= |e| {
        assert et[j] == t[j - |e|];
        if i >= |e| { assert et[i] == t[i - |e|]; } else { assert et[i] == e[i]; }
      } else {
        assert et[i] == e[i] && et[j] == e[j];
      }
    }
    forall i, j | 0 <= i < j < |et| && et[i].OpenTransfer? ensures !et[j].OpenTransfer? {
      if j >= |e| { assert et[j] == t[j - |e|]; } else { assert et[i] == e[i] && et[j] == e[j]; }
    }
    forall j | 0 <= j < |et| && et[j].OpenTransfer? ensures 0 < j && et[0] == Fetch(ContentRequest) {
      if j < |e| { assert et[j] == e[j] && et[0] == e[0]; }
    }
  }

  /** What `onFinish` does after the verification request: unlock the verified content, or else
      announce the unlocking, fetch the preview and unlock it with `txId` attached when it comes
      back ok. Every exception (a transport error or a body that is not JSON) ends in the
      "refresh" toast. */
  function Outcome(txId: string, verify: FetchResult, preview: FetchResult): seq<Effect> {
    match verify
    case NetworkError => [Toast(InfoToast, RefreshLater)]
    case Received(res) =>
      if IsOk(res.status) then
        if res.body.Some? then [Unlock(res.body.value, None)] else [Toast(InfoToast, RefreshLater)]
      else
        [Toast(InfoToast, Unlocking), Fetch(PreviewRequest)] +
        match preview
        case NetworkError => [Toast(InfoToast, RefreshLater)]
        case Received(previewRes) =>
          if !IsOk(previewRes.status) then []
          else if previewRes.body.Some? then [Unlock(previewRes.body.value, Some(txId))]
          else [Toast(InfoToast, RefreshLater)]
  }

  /** Content is unlocked exactly when the verification succeeds with a readable body, or fails
      and the preview comes back ok with a readable body. */
  lemma OutcomeUnlocks(txId: string, verify: FetchResult, preview: FetchResult)
    ensures (exists i :: 0 <= i < |Outcome(txId, verify, preview)| && Outcome(txId, verify, preview)[i].Unlock?) <==>
      || (verify.Received? && IsOk(verify.response.status) && verify.response.body.Some?)
      || (verify.Received? && !IsOk(verify.response.status) && preview.Received?
          && IsOk(preview.response.status) && preview.response.body.Some?)
  {
    var o := Outcome(txId, verify, preview);
    if verify.Received? && !IsOk(verify.response.status) && preview.Received?
       && IsOk(preview.response.status) && preview.response.body.Some? {
      assert o[2].Unlock?;
    } else if verify.Received? && IsOk(verify.response.status) && verify.response.body.Some? {
      assert o[0].Unlock?;
    }
  }

  /** After the verification request `onFinish` opens no signer, requests no second verification
      and unlocks at most once. */
  lemma OutcomeKeepsOrder(txId: string, verify: FetchResult, preview: FetchResult)
    ensures var o := Outcome(txId, verify, preview);
      NoOpen(o) && NoVerify(o) && AtMostOneUnlock(o)
  {
  }

  /** The same holds with the announcement and the verification request in front. */
  lemma AnnouncedOutcomeKeepsOrder(announce: seq<Effect>, txId: string, verify: FetchResult, preview: FetchResult)
    requires |announce| == 2 && announce[0].Toast? && announce[1].Fetch?
    ensures NoOpen(announce + Outcome(txId, verify, preview))
    ensures AtMostOneUnlock(announce + Outcome(txId, verify, preview))
  {
    var o := Outcome(txId, verify, preview);
    OutcomeKeepsOrder(txId, verify, preview);
    var t := announce + o;
    forall i | 0 <= i < |t| ensures !t[i].OpenTransfer? && (i >= 2 ==> t[i] == o[i - 2]) {
      if i >= 2 { assert t[i] == o[i - 2]; }
    }
  }

  /** The effects of a verification that fails: the unlocking toast and the preview request first. */
  lemma OutcomeAfterRejection(txId: string, verify: FetchResult, preview: FetchResult)
    requires verify.Received? && !IsOk(verify.response.status)
    ensures var o := Outcome(txId, verify, preview);
      && |o| >= 2 && o[..2] == [Toast(InfoToast, Unlocking), Fetch(PreviewRequest)]
      && (preview.Received? && !IsOk(preview.response.status) ==> |o| == 2)
  {
  }

  /** The steps of `onFinish` after the verification request. */
  method Settle(txId: string, verify: FetchResult, preview: FetchResult) returns (tail: seq<Effect>)
    ensures tail == Outcome(txId, verify, preview)
  {
    match verify {
    case NetworkError =>
      tail := [Toast(InfoToast, RefreshLater)];
    case Received(res) =>
      if IsOk(res.status) {
        tail := if res.body.Some? then [Unlock(res.body.value, None)] else [Toast(InfoToast, RefreshLater)];
      } else {
        tail := [Toast(InfoToast, Unlocking), Fetch(PreviewRequest)];
        match preview {
        case NetworkError =>
          tail := tail + [Toast(InfoToast, RefreshLater)];
        case Received(previewRes) =>
          if IsOk(previewRes.status) {
            tail := tail + if previewRes.body.Some? then [Unlock(previewRes.body.value, Some(txId))]
                           else [Toast(InfoToast, RefreshLater)];
          }
        }
      }
    }
  }

  class PaymentGate {
    const contentId: string
    const creatorAddress: string
    /** `STXtoMicroSTX(price)`, computed by the x402-stacks library. */
    const convertedPrice: nat

    var isPaying: bool
    var phase: Phase
    var effects: seq<Effect>

    /** `isPaying` is true exactly while an attempt is under way, and the attempt's effects keep their order. */
    ghost predicate Valid()
      reads this
    {
      && (isPaying <==> !phase.Idle?)
      && Ordered(effects)
      && (phase.Fetching? ==> effects == [Fetch(ContentRequest)])
      && (phase.AwaitingSigner? ==>
            && |effects| >= 2 && effects[|effects| - 1].OpenTransfer?
            && NoUnlock(effects) && NoVerify(effects))
    }

    constructor (contentId: string, creatorAddress: string, convertedPrice: nat)
      ensures Valid()
      ensures this.contentId == contentId && this.creatorAddress == creatorAddress
      ensures this.convertedPrice == convertedPrice
      ensures !isPaying && phase == Idle && effects == []
    {
      this.contentId := contentId;
      this.creatorAddress := creatorAddress;
      this.convertedPrice := convertedPrice;
      isPaying := false;
      phase := Idle;
      effects := [];
    }

    /** The pay button (disabled while paying). Without a wallet address only an error toast is
        shown: no request, no signer, `isPaying` untouched. Otherwise the content is requested. */
    method BeginPay(address: Option<string>)
      requires Valid() && !isPaying
      modifies this
      ensures Valid()
      ensures !Truthy(address) ==>
        effects == [Toast(ErrorToast, ConnectFirst)] && isPaying == old(isPaying) && phase == Idle
      ensures Truthy(address) ==>
        effects == [Fetch(ContentRequest)] && isPaying && phase == Fetching(address.value)
    {
      if !Truthy(address) {
        effects := [Toast(ErrorToast, ConnectFirst)];
        return;
      }
      isPaying := true;
      effects := [Fetch(ContentRequest)];
      phase := Fetching(address.value);
    }

    /** The content response arrives. A 2xx response unlocks its body at once; anything else
        opens the signer once, on testnet, with the recipient and amount of `Challenge`. A
        transport error, an unreadable 2xx body, or a throw from `openSTXTransfer` or from the
        `BigInt` conversion of its amount (`walletAvailable` false) end the attempt with an
        error toast. */
    method OnContentResponse(result: FetchResult, decode: string -> Option<Payload>, walletAvailable: bool)
      requires Valid() && phase.Fetching?
      modifies this
      ensures Valid()
      ensures result.NetworkError? ==>
        effects == old(effects) + [Toast(ErrorToast, InitiateFailed)] && !isPaying && phase == Idle
      ensures result.Received? && IsOk(result.response.status) && result.response.status != 402 ==>
        && !isPaying && phase == Idle
        && (result.response.body.Some? ==> effects == old(effects) + [Unlock(result.response.body.value, None)])
        && (result.response.body.None? ==> effects == old(effects) + [Toast(ErrorToast, InitiateFailed)])
      ensures result.Received? && !IsOk(result.response.status) && !walletAvailable ==>
        effects == old(effects) + [Toast(ErrorToast, InitiateFailed)] && !isPaying && phase == Idle
      ensures result.Received? && !IsOk(result.response.status) && walletAvailable ==>
        var t := Challenge(result.response, decode, creatorAddress, convertedPrice);
        && effects == old(effects) + [OpenTransfer(t.recipient, t.amount, "PayStream: " + contentId, Testnet)]
        && isPaying && phase == AwaitingSigner(old(phase).payer)
    {
      if result.NetworkError? {
        effects := effects + [Toast(ErrorToast, InitiateFailed)];
        isPaying := false;
        phase := Idle;
        return;
      }
      var response := result.response;
      var payTo := creatorAddress;
      var amountMicroSTX := convertedPrice;
      if response.status == 402 {
        var paymentRequired := response.paymentRequired;
        if Truthy(paymentRequired) {
          var requirements := decode(paymentRequired.value);
          if requirements.Some? {
            payTo := if Truthy(requirements.value.payTo) then requirements.value.payTo.value else creatorAddress;
            if TruthyAmount(requirements.value.maxAmountRequired) {
              amountMicroSTX := requirements.value.maxAmountRequired.value;
            }
          } else {
            var body := response.body;
            if body.Some? && Truthy(body.value.payTo) {
              payTo := body.value.payTo.value;
            }
            if body.Some? && TruthyAmount(body.value.maxAmountRequired) {
              amountMicroSTX := body.value.maxAmountRequired.value;
            }
          }
        }
      } else if IsOk(response.status) {
        if response.body.None? {
          effects := effects + [Toast(ErrorToast, InitiateFailed)];
        } else {
          effects := effects + [Unlock(response.body.value, None)];
        }
        isPaying := false;
        phase := Idle;
        return;
      }
      if !walletAvailable {
        effects := effects + [Toast(ErrorToast, InitiateFailed)];
        isPaying := false;
        phase := Idle;
        return;
      }
      effects := effects + [OpenTransfer(payTo, amountMicroSTX, "PayStream: " + contentId, Testnet)];
      phase := AwaitingSigner(phase.payer);
    }

    /** The signer's `onFinish`: announce the broadcast, ask the server to verify `txId`, then
        whatever `Outcome` says; the attempt always ends with `isPaying` false. */
    method OnFinish(txId: string, verify: FetchResult, preview: FetchResult)
      requires Valid() && phase.AwaitingSigner?
      modifies this
      ensures Valid() && !isPaying && phase == Idle
      ensures effects == old(effects) + [
        Toast(SuccessToast, "Payment broadcast! Tx: " + Prefix(txId, 12) + "..."),
        Fetch(VerifyRequest(txId, old(phase).payer))] + Outcome(txId, verify, preview)
    {
      var announce := [Toast(SuccessToast, "Payment broadcast! Tx: " + Prefix(txId, 12) + "..."),
                       Fetch(VerifyRequest(txId, phase.payer))];
      var tail := Settle(txId, verify, preview);
      AnnouncedOutcomeKeepsOrder(announce, txId, verify, preview);
      assert effects[|effects| - 1].OpenTransfer?;
      AppendKeepsOrder(effects, announce + tail);
      effects := effects + (announce + tail);
      isPaying := false;
      phase := Idle;
    }

    /** The signer's `onCancel`: an error toast, and the attempt ends with `isPaying` false. */
    method OnCancel()
      requires Valid() && phase.AwaitingSigner?
      modifies this
      ensures Valid() && !isPaying && phase == Idle
      ensures effects == old(effects) + [Toast(ErrorToast, Cancelled)]
    {
      effects := effects + [Toast(ErrorToast, Cancelled)];
      isPaying := false;
      phase := Idle;
    }
  }
}
