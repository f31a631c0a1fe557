/** Carts of a cash session: one being filled, any number on hold. */
module Carts {
  import opened Sums
  import opened Tables

  datatype CartItem = CartItem(product: Uuid, milli: nat, unitPrice: nat)

  datatype CartStatus = Active | Held(at: Instant)

  datatype Cart = Cart(session: Uuid, status: CartStatus, items: seq<CartItem>)

  /** `legacy`: carts of the former storage, by session. */
  datatype CartBook = CartBook(carts: map<Uuid, Cart>, legacy: map<Uuid, seq<CartItem>>)

  datatype CartError = ActiveCartNotEmpty | HeldCartNotFound

  function ActiveIds(carts: map<Uuid, Cart>, session: Uuid): set<Uuid> {
    set id | id in carts && carts[id].session == session && carts[id].status.Active?
  }

  /** The first active row of the session in the index, which is ordered by identifier. */
  function FindActive(carts: map<Uuid, Cart>, session: Uuid): (found: Option<Uuid>)
    ensures found.Some? ==>
              found.value in carts && carts[found.value].session == session && carts[found.value].status.Active?
    ensures found.None? ==> forall id :: id in carts && carts[id].session == session ==> !carts[id].status.Active?
  {
    var ids := ActiveIds(carts, session);
    if ids == {} then
      assert forall id :: id in carts && carts[id].session == session && carts[id].status.Active? ==> id in ids;
      None
    else Some(Least(ids))
  }

  function Legacy(b: CartBook, session: Uuid): seq<CartItem> {
    if session in b.legacy then b.legacy[session] else []
  }

  function EnsureSpec(b: CartBook, session: Uuid, newId: Uuid): CartBook {
    if FindActive(b.carts, session).Some? then b
    else CartBook(b.carts[newId := Cart(session, Active, Legacy(b, session))],
                  if Legacy(b, session) == [] then b.legacy else b.legacy[session := []])
  }

  function SaveSpec(b: CartBook, session: Uuid, items: seq<CartItem>, newId: Uuid): CartBook {
    var active := FindActive(b.carts, session);
    var id := if active.Some? then active.value else newId;
    b.(carts := b.carts[id := Cart(session, Active, items)])
  }

  function HoldSpec(b: CartBook, session: Uuid, newId: Uuid, now: Instant): CartBook {
    var active := FindActive(b.carts, session);
    if active.None? || b.carts[active.value].items == [] then b
    else b.(carts :=
      b.carts[active.value := b.carts[active.value].(status := Held(now))][newId := Cart(session, Active, [])])
  }

  predicate Resumable(b: CartBook, id: Uuid, session: Uuid) {
    id in b.carts && b.carts[id].session == session && b.carts[id].status.Held?
  }

  function ResumeSpec(b: CartBook, id: Uuid, session: Uuid, items: seq<CartItem>): Result<CartBook, CartError> {
    var active := FindActive(b.carts, session);
    if !Resumable(b, id, session) then Err(HeldCartNotFound)
    else if active.None? || b.carts[active.value].items != [] then Err(ActiveCartNotEmpty)
    else Ok(b.(carts := b.carts[active.value := b.carts[active.value].(items := items)] - {id}))
  }

  function DeleteSpec(b: CartBook, id: Uuid, session: Uuid): CartBook {
    if Resumable(b, id, session) then b.(carts := b.carts - {id}) else b
  }

  class CartDb {
    var carts: map<Uuid, Cart>
    var legacy: map<Uuid, seq<CartItem>>

    ghost function Book(): CartBook
      reads this
    {
      CartBook(carts, legacy)
    }

    /** A cart left in the former storage is adopted once. */
    method EnsureActiveCart(session: Uuid, newId: Uuid)
      modifies this
      ensures Book() == EnsureSpec(old(Book()), session, newId)
    {
      var existing := FindActive(carts, session);
      if existing.Some? { return; }
      var legacyItems := if session in legacy then legacy[session] else [];
      carts := carts[newId := Cart(session, Active, legacyItems)];
      if |legacyItems| > 0 { legacy := legacy[session := []]; }
    }

    method SaveActiveCartItems(session: Uuid, items: seq<CartItem>, newId: Uuid)
      modifies this
      ensures Book() == SaveSpec(old(Book()), session, items, newId)
    {
      var cart := FindActive(carts, session);
      if cart.Some? {
        carts := carts[cart.value := carts[cart.value].(items := items)];
      } else {
        carts := carts[newId := Cart(session, Active, items)];
      }
    }

    method HoldActiveCart(session: Uuid, newId: Uuid, now: Instant)
      modifies this
      ensures Book() == HoldSpec(old(Book()), session, newId, now)
    {
      var cart := FindActive(carts, session);
      if cart.None? || |carts[cart.value].items| == 0 { return; }
      carts := carts[cart.value := carts[cart.value].(status := Held(now))];
      carts := carts[newId := Cart(session, Active, [])];
    }

    method ResumeHeldCart(id: Uuid, session: Uuid, items: seq<CartItem>) returns (error: Option<CartError>)
      modifies this
      ensures error.None? ==> ResumeSpec(old(Book()), id, session, items) == Ok(Book())
      ensures error.Some? ==> Book() == old(Book()) && ResumeSpec(Book(), id, session, items) == Err(error.value)
    {
      if id !in carts || carts[id].session != session || !carts[id].status.Held? { return Some(HeldCartNotFound); }
      var active := FindActive(carts, session);
      if active.None? || |carts[active.value].items| > 0 { return Some(ActiveCartNotEmpty); }
      carts := carts[active.value := carts[active.value].(items := items)];
      carts := carts - {id};
      return None;
    }

    method DeleteHeldCart(id: Uuid, session: Uuid)
      modifies this
      ensures Book() == DeleteSpec(old(Book()), id, session)
    {
      if id !in carts || carts[id].session != session || !carts[id].status.Held? { return; }
      carts := carts - {id};
    }
  }

  // ---------- Every run ----------

  datatype CartMove =
    | Ensure(session: Uuid, newId: Uuid)
    | Save(session: Uuid, items: seq<CartItem>, newId: Uuid)
    | Hold(session: Uuid, newId: Uuid, now: Instant)
    | Resume(id: Uuid, session: Uuid, items: seq<CartItem>)
    | Delete(id: Uuid, session: Uuid)

  function CartStep(b: CartBook, m: CartMove): CartBook {
    match m
    case Ensure(session, newId) => EnsureSpec(b, session, newId)
    case Save(session, items, newId) => SaveSpec(b, session, items, newId)
    case Hold(session, newId, now) => HoldSpec(b, session, newId, now)
    case Resume(id, session, items) => var r := ResumeSpec(b, id, session, items); if r.Ok? then r.value else b
    case Delete(id, session) => DeleteSpec(b, id, session)
  }

  /** New identifiers name no cart yet. */
  predicate FreshId(b: CartBook, m: CartMove) {
    m.Ensure? || m.Save? || m.Hold? ==> m.newId !in b.carts
  }

  predicate OneActive(b: CartBook) {
    forall i, j :: i in b.carts && j in b.carts && SameActiveSession(b.carts[i], b.carts[j]) ==> i == j
  }

  predicate SameActiveSession(a: Cart, b: Cart) {
    a.status.Active? && b.status.Active? && a.session == b.session
  }

  lemma {:induction false} OneActiveKept(b: CartBook, m: CartMove)
    requires OneActive(b) && FreshId(b, m)
    ensures OneActive(CartStep(b, m))
  {
  }

  predicate AllFresh(b: CartBook, ms: seq<CartMove>) {
    |ms| > 0 ==> AllFresh(b, ms[..|ms| - 1]) && FreshId(CartRun(b, ms[..|ms| - 1]), ms[|ms| - 1])
  }

  function CartRun(b: CartBook, ms: seq<CartMove>): CartBook {
    if |ms| == 0 then b else CartStep(CartRun(b, ms[..|ms| - 1]), ms[|ms| - 1])
  }

  /** Every run keeps at most one active cart per session. */
  lemma {:induction false} OneActiveInEveryRun(b: CartBook, ms: seq<CartMove>)
    requires OneActive(b) && AllFresh(b, ms)
    ensures OneActive(CartRun(b, ms))
  {
    if |ms| > 0 {
      OneActiveInEveryRun(b, ms[..|ms| - 1]);
      OneActiveKept(CartRun(b, ms[..|ms| - 1]), ms[|ms| - 1]);
    }
  }

  /** Only typing into a cart changes a non-empty active cart: every other move leaves it,
      items and all, active or on hold under the same identifier. */
  lemma {:induction false} NothingDiscarded(b: CartBook, m: CartMove, id: Uuid)
    requires OneActive(b) && FreshId(b, m) && !m.Save?
    requires id in b.carts && b.carts[id].status.Active? && b.carts[id].items != []
    ensures id in CartStep(b, m).carts
    ensures CartStep(b, m).carts[id].session == b.carts[id].session
              && CartStep(b, m).carts[id].items == b.carts[id].items
    ensures CartStep(b, m).carts[id].status.Held? ==> m.Hold? && m.session == b.carts[id].session
  {
  }

  /** The items a session is filling its cart with. */
  function Filling(b: CartBook, session: Uuid): Option<seq<CartItem>> {
    var active := FindActive(b.carts, session);
    if active.Some? then Some(b.carts[active.value].items) else None
  }

  lemma {:induction false} FoundWhere(carts: map<Uuid, Cart>, session: Uuid, id: Uuid)
    requires id in carts && carts[id].session == session && carts[id].status.Active?
    requires forall other ::
               other in carts && carts[other].session == session && carts[other].status.Active? ==> other == id
    ensures FindActive(carts, session) == Some(id)
  {
    assert id in ActiveIds(carts, session);
  }

  /** What is typed is what the session then has. */
  lemma {:induction false} FillingAfterSave(b: CartBook, session: Uuid, items: seq<CartItem>, newId: Uuid)
    requires OneActive(b) && newId !in b.carts
    ensures Filling(SaveSpec(b, session, items, newId), session) == Some(items)
  {
    var active := FindActive(b.carts, session);
    OneActiveKept(b, Save(session, items, newId));
    ActiveIsFound(SaveSpec(b, session, items, newId), if active.Some? then active.value else newId);
  }

  /** An empty cart takes the place of the one put on hold. */
  lemma {:induction false} FillingAfterHold(b: CartBook, session: Uuid, newId: Uuid, now: Instant)
    requires OneActive(b) && newId !in b.carts && Filling(b, session).Some?
    ensures Filling(HoldSpec(b, session, newId, now), session) == Some([])
  {
    if Filling(b, session) != Some([]) {
      OneActiveKept(b, Hold(session, newId, now));
      ActiveIsFound(HoldSpec(b, session, newId, now), newId);
    }
  }

  /** A cart taken back brings the items it is taken back with, and is on hold no more. */
  lemma {:induction false} FillingAfterResume(b: CartBook, id: Uuid, session: Uuid, items: seq<CartItem>)
    requires OneActive(b) && ResumeSpec(b, id, session, items).Ok?
    ensures var after := ResumeSpec(b, id, session, items).value;
            Filling(after, session) == Some(items) && id !in after.carts
  {
    OneActiveKept(b, Resume(id, session, items));
    ActiveIsFound(ResumeSpec(b, id, session, items).value, FindActive(b.carts, session).value);
  }

  /** Deleting a cart on hold leaves the one being filled. */
  lemma {:induction false} FillingAfterDelete(b: CartBook, id: Uuid, session: Uuid)
    requires OneActive(b) && Filling(b, session).Some?
    ensures Filling(DeleteSpec(b, id, session), session) == Filling(b, session)
    ensures Resumable(b, id, session) ==> id !in DeleteSpec(b, id, session).carts
  {
    OneActiveKept(b, Delete(id, session));
    ActiveIsFound(DeleteSpec(b, id, session), FindActive(b.carts, session).value);
  }

  lemma {:induction false} ActiveIsFound(b: CartBook, id: Uuid)
    requires OneActive(b) && id in b.carts && b.carts[id].status.Active?
    ensures FindActive(b.carts, b.carts[id].session) == Some(id)
  {
    forall other | other in b.carts && b.carts[other].session == b.carts[id].session && b.carts[other].status.Active?
      ensures other == id
    {
      assert SameActiveSession(b.carts[other], b.carts[id]);
    }
    FoundWhere(b.carts, b.carts[id].session, id);
  }

  /** A cart put on hold says since when. */
  lemma {:induction false} HeldSince(b: CartBook, session: Uuid, newId: Uuid, now: Instant)
    requires OneActive(b) && newId !in b.carts && FindActive(b.carts, session).Some?
    requires b.carts[FindActive(b.carts, session).value].items != []
    ensures var id := FindActive(b.carts, session).value;
            Resumable(HoldSpec(b, session, newId, now), id, session)
            && HoldSpec(b, session, newId, now).carts[id].status == Held(now)
  {
  }

  /** A cart left in the former storage is adopted by a session without one, and only once:
      whatever follows, the former storage has nothing more for that session. */
  lemma {:induction false} AdoptedOnce(b: CartBook, session: Uuid, newId: Uuid, later: seq<CartMove>)
    requires OneActive(b) && newId !in b.carts && FindActive(b.carts, session).None?
    ensures Filling(EnsureSpec(b, session, newId), session) == Some(Legacy(b, session))
    ensures Legacy(CartRun(EnsureSpec(b, session, newId), later), session) == []
  {
    OneActiveKept(b, Ensure(session, newId));
    ActiveIsFound(EnsureSpec(b, session, newId), newId);
    NothingLeft(EnsureSpec(b, session, newId), session, later);
  }

  lemma {:induction false} NothingLeft(b: CartBook, session: Uuid, later: seq<CartMove>)
    requires Legacy(b, session) == []
    ensures Legacy(CartRun(b, later), session) == []
  {
    if |later| > 0 { NothingLeft(b, session, later[..|later| - 1]); }
  }

  /** Typing into the cart while it is active, taking it back from hold, deleting it there. */
  predicate Touches(b: CartBook, m: CartMove, id: Uuid) {
    id in b.carts &&
    match m
    case Save(session, items, _) =>
      b.carts[id].status.Active? && session == b.carts[id].session && items != b.carts[id].items
    case Resume(held, session, items) => held == id && ResumeSpec(b, held, session, items).Ok?
    case Delete(held, session) => held == id && Resumable(b, held, session)
    case _ => false
  }

  predicate SameCart(before: CartBook, after: CartBook, id: Uuid) {
    id in before.carts && id in after.carts
    && after.carts[id].session == before.carts[id].session && after.carts[id].items == before.carts[id].items
  }

  /** One move keeps a non-empty cart, active or on hold, if and only if it does not touch it. */
  lemma {:induction false} SameCartIff(b: CartBook, m: CartMove, id: Uuid)
    requires OneActive(b) && FreshId(b, m) && id in b.carts && b.carts[id].items != []
    ensures SameCart(b, CartStep(b, m), id) <==> !Touches(b, m, id)
  {
  }

  ghost predicate NeverTouched(b: CartBook, ms: seq<CartMove>, id: Uuid) {
    forall i :: 0 <= i < |ms| ==> !Touches(CartRun(b, ms[..i]), ms[i], id)
  }

  /** At every point of the run the cart is there, active or on hold, with its items. */
  ghost predicate StaysThroughout(b: CartBook, ms: seq<CartMove>, id: Uuid) {
    forall i :: 0 <= i <= |ms| ==> SameCart(b, CartRun(b, ms[..i]), id)
  }

  lemma {:induction false} PrefixFresh(b: CartBook, ms: seq<CartMove>, n: nat)
    requires AllFresh(b, ms) && n <= |ms|
    ensures AllFresh(b, ms[..n])
    ensures n < |ms| ==>
              FreshId(CartRun(b, ms[..n]), ms[n]) && CartRun(b, ms[..n + 1]) == CartStep(CartRun(b, ms[..n]), ms[n])
    decreases |ms| - n
  {
    if n < |ms| {
      PrefixFresh(b, ms, n + 1);
      assert ms[..n + 1][..n] == ms[..n];
    } else {
      assert ms[..n] == ms;
    }
  }

  lemma {:induction false} StaysUntil(b: CartBook, ms: seq<CartMove>, id: Uuid, n: nat)
    requires OneActive(b) && AllFresh(b, ms) && id in b.carts && b.carts[id].items != []
    requires NeverTouched(b, ms, id) && n <= |ms|
    ensures SameCart(b, CartRun(b, ms[..n]), id)
    decreases n
  {
    if n > 0 {
      StaysUntil(b, ms, id, n - 1);
      PrefixFresh(b, ms, n - 1);
      OneActiveInEveryRun(b, ms[..n - 1]);
      SameCartIff(CartRun(b, ms[..n - 1]), ms[n - 1], id);
    }
  }

  /** Over every run with fresh identifiers, a non-empty cart stays, active or on hold, with
      its items, if and only if no move of the run touches it. */
  lemma {:induction false} StaysThroughoutIff(b: CartBook, ms: seq<CartMove>, id: Uuid)
    requires OneActive(b) && AllFresh(b, ms) && id in b.carts && b.carts[id].items != []
    ensures StaysThroughout(b, ms, id) <==> NeverTouched(b, ms, id)
  {
    if NeverTouched(b, ms, id) {
      forall i | 0 <= i <= |ms| ensures SameCart(b, CartRun(b, ms[..i]), id) { StaysUntil(b, ms, id, i); }
    }
    if StaysThroughout(b, ms, id) {
      forall i | 0 <= i < |ms| ensures !Touches(CartRun(b, ms[..i]), ms[i], id) {
        PrefixFresh(b, ms, i);
        OneActiveInEveryRun(b, ms[..i]);
        SameCartIff(CartRun(b, ms[..i]), ms[i], id);
        assert SameCart(b, CartRun(b, ms[..i]), id) && SameCart(b, CartRun(b, ms[..i + 1]), id);
      }
    }
  }

  /** Holding a cart and resuming it with the same items gives back the cart: the active
      one is the same but for its identifier, and every other cart is untouched. */
  lemma {:induction false} HoldThenResume(b: CartBook, session: Uuid, newId: Uuid, now: Instant)
    requires OneActive(b) && newId !in b.carts
    requires FindActive(b.carts, session).Some? && b.carts[FindActive(b.carts, session).value].items != []
    ensures var id := FindActive(b.carts, session).value;
            var cart := b.carts[id];
            ResumeSpec(HoldSpec(b, session, newId, now), id, session, cart.items) ==
              Ok(b.(carts := (b.carts - {id})[newId := cart]))
  {
    var id := FindActive(b.carts, session).value;
    var held := HoldSpec(b, session, newId, now);
    assert FindActive(held.carts, session) == Some(newId) by {
      assert held.carts[newId].status.Active? && held.carts[newId].session == session;
    }
    assert held.carts[newId := held.carts[newId].(items := b.carts[id].items)] - {id} ==
        (b.carts - {id})[newId := b.carts[id]];
  }
}
