/** The profile settings page (src/pages/ProfileSettings.tsx): the software
    shop with its purchase flow and ownership check, and the inventory with
    its per-type counts. */
module ProfileSettings {
  import opened Common

  // ---------------------------------------------------------------------------
  // Data

  datatype SoftwareKind = Movement | HvH

  /** A product of the shop; the price in whole cents. */
  datatype Software = Software(id: int, name: string, kind: SoftwareKind, price: int,
                               description: string, features: seq<string>)

  datatype PaymentMethod = Crypto | Card

  datatype PurchaseStatus = Completed | Pending | Failed

  datatype Purchase = Purchase(id: int, userId: int, softwareId: int, purchaseDate: string,
                               paymentMethod: PaymentMethod, amount: int, status: PurchaseStatus)

  datatype ItemKind = Invite | Reward | Badge

  datatype InventoryItem = InventoryItem(id: int, name: string, kind: ItemKind, description: string,
                                         expiresAt: Option<string>, createdAt: string)

  // ---------------------------------------------------------------------------
  // Ownership

  /** `hasPurchasedSoftware`: some purchase of that product has completed. */
  predicate HasPurchased(purchases: seq<Purchase>, softwareId: int) {
    exists i :: 0 <= i < |purchases| && purchases[i].softwareId == softwareId && purchases[i].status == Completed
  }

  /** One more purchase record makes a product owned exactly when it is a
      completed purchase of that product; ownership of others is unaffected. */
  lemma OwnershipAfterRecord(purchases: seq<Purchase>, p: Purchase, softwareId: int)
    ensures HasPurchased(purchases + [p], softwareId) <==>
            HasPurchased(purchases, softwareId) || (p.softwareId == softwareId && p.status == Completed)
  {
    var all := purchases + [p];
    if HasPurchased(purchases, softwareId) {
      var i :| 0 <= i < |purchases| && purchases[i].softwareId == softwareId && purchases[i].status == Completed;
      assert all[i] == purchases[i];
    }
    if p.softwareId == softwareId && p.status == Completed {
      assert all[|purchases|] == p;
    }
    if HasPurchased(all, softwareId) {
      var i :| 0 <= i < |all| && all[i].softwareId == softwareId && all[i].status == Completed;
      if i < |purchases| {
        assert purchases[i] == all[i];
      }
    }
  }

  /** A pending or failed purchase does not make anything owned. */
  lemma OnlyCompletedOwns(purchases: seq<Purchase>, softwareId: int)
    requires forall i :: 0 <= i < |purchases| ==> purchases[i].status != Completed
    ensures !HasPurchased(purchases, softwareId)
  {
  }

  datatype CardButton = Owned | BuyNow

  /** The button a software card shows: a disabled OWNED, or BUY NOW. */
  function CardButtonFor(purchases: seq<Purchase>, soft: Software): (b: CardButton)
    ensures b == Owned <==> HasPurchased(purchases, soft.id)
  {
    if HasPurchased(purchases, soft.id) then Owned else BuyNow
  }

  // ---------------------------------------------------------------------------
  // Inventory statistics

  function CountKind(items: seq<InventoryItem>, kind: ItemKind): nat {
    Count(items, (i: InventoryItem) => i.kind == kind)
  }

  /** Invites, rewards and badges add up to the total, since every item is one of the three. */
  lemma {:induction false} KindCountsSum(items: seq<InventoryItem>)
    ensures CountKind(items, Invite) + CountKind(items, Reward) + CountKind(items, Badge) == |items|
  {
    if items != [] {
      KindCountsSum(items[1..]);
    }
  }

  // ---------------------------------------------------------------------------
  // Loading

  /** A list reply: its `success` flag and the list, which may be missing. */
  datatype ListReply<+T> = ListReply(success: bool, items: Option<seq<T>>)

  /** What one list ends up as: the list when the reply arrived with `success`
      and a list, empty otherwise; a call that threw was turned into an
      unsuccessful reply by its own handler. */
  function LoadedList<T>(reply: Reply<ListReply<T>>): (items: seq<T>)
    ensures items != [] ==> reply.Returned? && reply.body.success && reply.body.items == Some(items)
    ensures reply.Returned? && reply.body.success && reply.body.items.Some? ==> items == reply.body.items.value
  {
    match reply
    case Returned(r) => if r.success && r.items.Some? then r.items.value else []
    case Threw(_) => []
  }

  /** The page's state. */
  class Page {
    const uid: int
    var software: seq<Software>
    var purchases: seq<Purchase>
    var inventory: seq<InventoryItem>
    var showPaymentModal: bool
    var selectedSoftware: Option<Software>
    var paymentMethod: Option<PaymentMethod>
    var processing: bool

    constructor (uid: int)
      ensures this.uid == uid && software == [] && purchases == [] && inventory == []
      ensures !showPaymentModal && selectedSoftware == None && paymentMethod == None && !processing
    {
      this.uid := uid;
      software := [];
      purchases := [];
      inventory := [];
      showPaymentModal := false;
      selectedSoftware := None;
      paymentMethod := None;
      processing := false;
    }

    /** `loadData`. Each list depends on its own reply alone; `crashed` is an
        exception raised outside the three per-call handlers, after which all
        three lists are empty. */
    method LoadData(softwareReply: Reply<ListReply<Software>>, purchasesReply: Reply<ListReply<Purchase>>,
                    inventoryReply: Reply<ListReply<InventoryItem>>, crashed: bool)
      modifies this`software, this`purchases, this`inventory
      ensures software == (if crashed then [] else LoadedList(softwareReply))
      ensures purchases == (if crashed then [] else LoadedList(purchasesReply))
      ensures inventory == (if crashed then [] else LoadedList(inventoryReply))
    {
      if crashed {
        software, purchases, inventory := [], [], [];
        return;
      }
      software := LoadedList(softwareReply);
      purchases := LoadedList(purchasesReply);
      inventory := LoadedList(inventoryReply);
    }

    /** `handleBuyClick`: the payment dialog opens for `soft` with no payment method chosen. */
    method HandleBuyClick(soft: Software)
      modifies this`selectedSoftware, this`paymentMethod, this`showPaymentModal
      ensures selectedSoftware == Some(soft) && paymentMethod == None && showPaymentModal
    {
      selectedSoftware := Some(soft);
      paymentMethod := None;
      showPaymentModal := true;
    }

    /** `handleCompletePurchase`. Without a product or a payment method only
        the alert is shown. Otherwise the purchase is requested, then the
        purchases are fetched again; `processing` ends false either way, and
        only a purchase that went through closes the dialog. */
    method HandleCompletePurchase(createReply: Reply<bool>, refreshReply: Reply<ListReply<Purchase>>)
      returns (request: Option<(int, int, PaymentMethod)>, refreshed: bool, alert: string)
      modifies this`processing, this`showPaymentModal
      ensures request.Some? <==> selectedSoftware.Some? && paymentMethod.Some?
      ensures request.Some? ==> request.value == (uid, selectedSoftware.value.id, paymentMethod.value)
      ensures request.None? ==>
                alert == "Please select a payment method" && !refreshed &&
                processing == old(processing) && showPaymentModal == old(showPaymentModal)
      ensures request.Some? ==> !processing
      ensures refreshed <==> request.Some? && createReply.Returned?
      ensures request.Some? && createReply.Returned? && refreshReply.Returned? ==>
                alert == "Purchase completed successfully!" && !showPaymentModal
      ensures request.Some? && !(createReply.Returned? && refreshReply.Returned?) ==>
                alert == "Purchase failed. Please try again." && showPaymentModal == old(showPaymentModal)
    {
      var soft, payment := selectedSoftware, paymentMethod;
      if soft.None? || payment.None? {
        return None, false, "Please select a payment method";
      }
      processing := true;
      request := Some((uid, soft.value.id, payment.value));
      refreshed := createReply.Returned?;
      if createReply.Returned? && refreshReply.Returned? {
        processing := false;
        showPaymentModal := false;
        alert := "Purchase completed successfully!";
      } else {
        processing := false;
        alert := "Purchase failed. Please try again.";
      }
    }
  }

  /** Choosing a product and confirming at once, before any payment method is
      picked, only shows the alert: opening the dialog clears the method. */
  method BuyThenConfirmAtOnce(uid: int, soft: Software, create: Reply<bool>, refresh: Reply<ListReply<Purchase>>)
    returns (request: Option<(int, int, PaymentMethod)>, alert: string)
    ensures request == None && alert == "Please select a payment method"
  {
    var page := new Page(uid);
    page.HandleBuyClick(soft);
    var refreshed;
    request, refreshed, alert := page.HandleCompletePurchase(create, refresh);
  }
}
