/** Stock quantities, the movement journal and the weighted average cost. */
module Inventory {
  import opened Sums
  import opened Rounding
  import opened Tables

  // ---------- One movement ----------

  function WeightedAverageCost(quantity: int, average: Option<nat>, incoming: nat,
      incomingCost: Option<nat>): Option<nat> {
    if incomingCost.None? then average
    else if quantity <= 0 || average.None? then incomingCost
    else Some(HalfUp(quantity * average.value + incoming * incomingCost.value, quantity + incoming))
  }

  predicate Inbound(kind: MovementKind) {
    kind.StockIn? || kind.ReturnIn? || kind.Cancellation?
  }

  /** Inbound goods arrive with a positive quantity. */
  predicate WellFormed(m: Movement) {
    Inbound(m.kind) ==> m.quantity > 0
  }

  function PostRow(row: StockRow, m: Movement): StockRow
    requires WellFormed(m)
  {
    StockRow(
      row.quantity + m.quantity,
      if Inbound(m.kind) then WeightedAverageCost(row.quantity, row.cost, m.quantity, m.unitCost) else row.cost)
  }

  /** What every service does to stock: update one row and journal the movement. */
  function Post(book: StockBook, m: Movement): StockBook
    requires WellFormed(m)
  {
    book.(rows := book.rows[m.key := PostRow(RowAt(book.rows, m.key), m)], movements := book.movements + [m])
  }

  function PostAll(book: StockBook, ms: seq<Movement>): StockBook
    requires forall m :: m in ms ==> WellFormed(m)
  {
    if |ms| == 0 then book else Post(PostAll(book, ms[..|ms| - 1]), ms[|ms| - 1])
  }

  lemma {:induction false} PostAllPush(book: StockBook, ms: seq<Movement>, m: Movement)
    requires forall x :: x in ms + [m] ==> WellFormed(x)
    ensures forall x :: x in ms ==> WellFormed(x)
    ensures WellFormed(m)
    ensures PostAll(book, ms + [m]) == Post(PostAll(book, ms), m)
  {
    assert forall x :: x in ms ==> x in ms + [m];
    assert m in ms + [m];
    assert (ms + [m])[..|ms|] == ms;
  }

  // ---------- Conservation ----------

  function QuantityAt(key: StockKey): Movement -> int {
    (m: Movement) => if m.key == key then m.quantity else 0
  }

  /** Every stock quantity is the sum of its movements. */
  ghost predicate Conserved(book: StockBook) {
    forall key :: RowAt(book.rows, key).quantity == Sum(book.movements, QuantityAt(key))
  }

  lemma {:induction false} PostAllQuantities(book: StockBook, ms: seq<Movement>, key: StockKey)
    requires forall m :: m in ms ==> WellFormed(m)
    ensures PostAll(book, ms).movements == book.movements + ms
    ensures PostAll(book, ms).changes == book.changes
    ensures RowAt(PostAll(book, ms).rows, key).quantity == RowAt(book.rows, key).quantity + Sum(ms, QuantityAt(key))
    ensures key in PostAll(book, ms).rows <==> key in book.rows || exists m :: m in ms && m.key == key
  {
    if |ms| > 0 {
      var front := ms[..|ms| - 1];
      PostAllQuantities(book, front, key);
      assert ms == front + [ms[|ms| - 1]];
      assert book.movements + ms == (book.movements + front) + [ms[|ms| - 1]];
    } else {
      assert book.movements + ms == book.movements;
    }
  }

  lemma {:induction false} PostAllConserves(book: StockBook, ms: seq<Movement>)
    requires Conserved(book)
    requires forall m :: m in ms ==> WellFormed(m)
    ensures Conserved(PostAll(book, ms))
  {
    var after := PostAll(book, ms);
    forall key ensures RowAt(after.rows, key).quantity == Sum(after.movements, QuantityAt(key)) {
      PostAllQuantities(book, ms, key);
      SumConcat(book.movements, ms, QuantityAt(key));
    }
  }

  ghost predicate DistinctKeys(ms: seq<Movement>) {
    forall i, j :: 0 <= i < j < |ms| ==> ms[i].key != ms[j].key
  }

  /** When a batch touches each key at most once, each row sees its own movement only. */
  lemma {:induction false} PostAllOnce(book: StockBook, ms: seq<Movement>, i: nat)
    requires forall m :: m in ms ==> WellFormed(m)
    requires DistinctKeys(ms)
    ensures i < |ms| ==> RowAt(PostAll(book, ms).rows, ms[i].key) == PostRow(RowAt(book.rows, ms[i].key), ms[i])
    ensures forall key :: (forall m :: m in ms ==> m.key != key) ==>
              RowAt(PostAll(book, ms).rows, key) == RowAt(book.rows, key)
  {
    if |ms| > 0 {
      var last := |ms| - 1;
      var front := ms[..last];
      PostAllOnce(book, front, i);
      assert ms[last] in ms;
      assert forall m :: m in front ==> m in ms && m.key != ms[last].key;
      if i < last {
        assert front[i] == ms[i];
      }
    }
  }

  // ---------- The average cost over whole runs ----------

  ghost predicate Within(cost: Option<nat>, lo: nat, hi: nat) {
    cost.Some? ==> lo <= cost.value <= hi
  }

  lemma {:induction false} AverageWithin(quantity: int, average: Option<nat>, incoming: nat,
      incomingCost: Option<nat>, lo: nat, hi: nat)
    requires incoming > 0
    requires Within(average, lo, hi) && Within(incomingCost, lo, hi)
    ensures Within(WeightedAverageCost(quantity, average, incoming, incomingCost), lo, hi)
    ensures average.Some? || incomingCost.Some? <==>
              WeightedAverageCost(quantity, average, incoming, incomingCost).Some?
  {
    if incomingCost.Some? && quantity > 0 && average.Some? {
      MulMonotone(lo, average.value, quantity);
      MulMonotone(average.value, hi, quantity);
      MulMonotone(lo, incomingCost.value, incoming);
      MulMonotone(incomingCost.value, hi, incoming);
      assert lo * (quantity + incoming) == lo * quantity + lo * incoming;
      assert hi * (quantity + incoming) == hi * quantity + hi * incoming;
      HalfUpWithin(quantity * average.value + incoming * incomingCost.value, quantity + incoming, lo, hi);
    }
  }

  /** The costs a movement batch brings to `key` all lie in [lo, hi]. */
  ghost predicate BringsWithin(ms: seq<Movement>, key: StockKey, lo: nat, hi: nat) {
    forall m :: m in ms && m.key == key && Inbound(m.kind) ==> Within(m.unitCost, lo, hi)
  }

  lemma {:induction false} PostAllWithin(book: StockBook, ms: seq<Movement>, key: StockKey, lo: nat, hi: nat)
    requires forall m :: m in ms ==> WellFormed(m)
    requires Within(RowAt(book.rows, key).cost, lo, hi)
    requires BringsWithin(ms, key, lo, hi)
    ensures Within(RowAt(PostAll(book, ms).rows, key).cost, lo, hi)
  {
    if |ms| > 0 {
      var front, m := ms[..|ms| - 1], ms[|ms| - 1];
      PostAllWithin(book, front, key, lo, hi);
      if m.key == key && Inbound(m.kind) {
        AverageWithin(RowAt(PostAll(book, front).rows, key).quantity, RowAt(PostAll(book, front).rows, key).cost,
          m.quantity, m.unitCost, lo, hi);
      }
    }
  }

  /** Once known, an average cost never becomes unknown; and without an inbound
      movement it does not change at all. */
  lemma {:induction false} PostAllKeepsCost(book: StockBook, ms: seq<Movement>, key: StockKey)
    requires forall m :: m in ms ==> WellFormed(m)
    ensures RowAt(book.rows, key).cost.Some? ==> RowAt(PostAll(book, ms).rows, key).cost.Some?
    ensures (forall m :: m in ms ==> !Inbound(m.kind)) ==>
              RowAt(PostAll(book, ms).rows, key).cost == RowAt(book.rows, key).cost
  {
    if |ms| > 0 {
      PostAllKeepsCost(book, ms[..|ms| - 1], key);
    }
  }

  // ---------- Valuation ----------

  /** Stock value, in thousandths × ten-thousandths. */
  function Value(row: StockRow): int
    requires row.cost.Some?
  {
    row.quantity * row.cost.value
  }

  ghost predicate Journalled(ms: seq<Movement>) {
    forall i :: 0 <= i < |ms| ==> WellFormed(ms[i])
  }

  /** A row carried through a journal. */
  ghost function RowThrough(row: StockRow, ms: seq<Movement>, key: StockKey): StockRow
    requires Journalled(ms)
  {
    if |ms| == 0 then row
    else
      var before, m := RowThrough(row, ms[..|ms| - 1], key), ms[|ms| - 1];
      if m.key == key then PostRow(before, m) else before
  }

  lemma {:induction false} RowThroughBoth(row: StockRow, a: seq<Movement>, b: seq<Movement>, key: StockKey)
    requires Journalled(a) && Journalled(b)
    ensures Journalled(a + b) && RowThrough(row, a + b, key) == RowThrough(RowThrough(row, a, key), b, key)
  {
    if |b| == 0 {
      assert a + b == a;
    } else {
      var front := b[..|b| - 1];
      RowThroughBoth(row, a, front, key);
      assert (a + b)[..|a + b| - 1] == a + front && (a + b)[|a + b| - 1] == b[|b| - 1];
    }
  }

  lemma {:induction false} PostAllRow(book: StockBook, ms: seq<Movement>, key: StockKey)
    requires forall m :: m in ms ==> WellFormed(m)
    ensures Journalled(ms) && RowAt(PostAll(book, ms).rows, key) == RowThrough(RowAt(book.rows, key), ms, key)
  {
    if |ms| > 0 { PostAllRow(book, ms[..|ms| - 1], key); }
  }

  /** The average is computed anew, hence rounded. */
  predicate Averages(m: Movement, key: StockKey) {
    m.key == key && Inbound(m.kind) && m.unitCost.Some?
  }

  /** Whatever comes in at a known cost finds stock above zero. */
  ghost predicate FindsStock(row: StockRow, ms: seq<Movement>, key: StockKey)
    requires Journalled(ms)
  {
    |ms| > 0 ==>
      && FindsStock(row, ms[..|ms| - 1], key)
      && (Averages(ms[|ms| - 1], key) ==> RowThrough(row, ms[..|ms| - 1], key).quantity > 0)
  }

  /** What the goods are worth that a movement brings in or takes out: at its own cost when
      it comes in at one, else at the average of the moment. */
  function Worth(row: StockRow, m: Movement, key: StockKey): int
    requires row.cost.Some?
  {
    if m.key != key then 0
    else m.quantity * if Averages(m, key) then m.unitCost.value else row.cost.value
  }

  lemma {:induction false} CostStays(row: StockRow, ms: seq<Movement>, key: StockKey)
    requires Journalled(ms) && row.cost.Some?
    ensures RowThrough(row, ms, key).cost.Some?
  {
    if |ms| > 0 { CostStays(row, ms[..|ms| - 1], key); }
  }

  ghost function WorthThrough(row: StockRow, ms: seq<Movement>, key: StockKey): int
    requires Journalled(ms) && row.cost.Some?
  {
    if |ms| == 0 then 0
    else
      var front := ms[..|ms| - 1];
      CostStays(row, front, key);
      WorthThrough(row, front, key) + Worth(RowThrough(row, front, key), ms[|ms| - 1], key)
  }

  /** Units on hand each time the average is rounded, added up. */
  ghost function UnitsHeld(row: StockRow, ms: seq<Movement>, key: StockKey): int
    requires Journalled(ms)
  {
    if |ms| == 0 then 0
    else
      UnitsHeld(row, ms[..|ms| - 1], key)
      + if Averages(ms[|ms| - 1], key) then RowThrough(row, ms, key).quantity else 0
  }

  lemma {:induction false} AverageDrift(quantity: nat, average: nat, incoming: nat, cost: nat)
    requires quantity > 0 && incoming > 0
    ensures var after := WeightedAverageCost(quantity, Some(average), incoming, Some(cost));
            var drift := (quantity + incoming) * after.value - (quantity * average + incoming * cost);
            after.Some? && -(quantity + incoming) as int <= 2 * drift <= quantity + incoming
  {
    HalfUpError(quantity * average + incoming * cost, quantity + incoming);
  }

  lemma {:induction false} MovementDrift(row: StockRow, m: Movement, key: StockKey)
    requires WellFormed(m) && m.key == key && row.cost.Some? && (Averages(m, key) ==> row.quantity > 0)
    ensures PostRow(row, m).cost.Some?
    ensures var drift := Value(PostRow(row, m)) - Value(row) - Worth(row, m, key);
            if Averages(m, key) then -PostRow(row, m).quantity <= 2 * drift <= PostRow(row, m).quantity else drift == 0
  {
    if Averages(m, key) {
      AverageDrift(row.quantity, row.cost.value, m.quantity, m.unitCost.value);
    } else {
      assert (row.quantity + m.quantity) * row.cost.value ==
          row.quantity * row.cost.value + m.quantity * row.cost.value;
    }
  }

  /** Through any journal in which goods of known cost find stock above zero, the valuation
      moves by the worth of what came in and went out, within half a cost quantum per unit
      held each time the average was rounded. */
  lemma {:induction false} ValuationDrift(row: StockRow, ms: seq<Movement>, key: StockKey)
    requires Journalled(ms) && row.cost.Some? && FindsStock(row, ms, key)
    ensures RowThrough(row, ms, key).cost.Some?
    ensures var drift := Value(RowThrough(row, ms, key)) - Value(row) - WorthThrough(row, ms, key);
            -UnitsHeld(row, ms, key) <= 2 * drift <= UnitsHeld(row, ms, key)
  {
    if |ms| > 0 {
      var front, m := ms[..|ms| - 1], ms[|ms| - 1];
      ValuationDrift(row, front, key);
      if m.key == key { MovementDrift(RowThrough(row, front, key), m, key); }
    }
  }

  /** Giving back the units just taken, at the cost they left at, undoes the sale
      exactly, even when the stock went to zero or below. */
  lemma {:induction false} TakeAndGiveBack(row: StockRow, out: Movement, back: Movement)
    requires !Inbound(out.kind) && Inbound(back.kind)
    requires back.quantity > 0 && out.quantity == -back.quantity && back.unitCost == row.cost
    ensures PostRow(PostRow(row, out), back) == row
  {
    if row.cost.Some? && row.quantity > back.quantity {
      var c, q := row.cost.value, back.quantity;
      assert (row.quantity - q) * c + q * c == c * row.quantity;
      HalfUpExact(c, row.quantity);
    }
  }

  // ---------- Services ----------

  predicate ValidQuantity(quantity: int, unit: SaleUnit, allowZero: bool) {
    quantity >= 0 && (allowZero || quantity != 0) && (unit.Unit? ==> quantity % QUANTITY_SCALE == 0)
  }

  const COST_PER_CENT := 100

  /** The cost a lot comes in at: the one typed, else the last purchase price
      (zero meaning unknown), else unknown. */
  function LotCost(product: Product, unitCost: Option<nat>): Option<nat> {
    if unitCost.Some? then unitCost
    else if product.purchasePrice.Some? && product.purchasePrice.value != 0
      then Some(COST_PER_CENT * product.purchasePrice.value)
    else None
  }

  function ReceiveStockSpec(db: Db, store: Uuid, product: Uuid, quantity: int, unitCost: Option<int>)
      : Result<Db, ServiceError> {
    if product !in db.products then Err(NotFound)
    else if !ValidQuantity(quantity, db.products[product].saleUnit, false) then Err(InvalidStockQuantity)
    else if unitCost.Some? && unitCost.value < 0 then Err(InvalidStockCost)
    else
      var p := db.products[product];
      var cost: Option<nat> := if unitCost.Some? then Some(unitCost.value) else None;
      var m := Movement(StockKey(store, product), StockIn, quantity, LotCost(p, cost), None);
      var lastPrice := if cost.Some? && cost.value != 0 then Some(HalfUp(cost.value, COST_PER_CENT))
          else p.purchasePrice;
      Ok(db.(book := Post(db.book, m), products := db.products[product := p.(purchasePrice := lastPrice)]))
  }

  method ReceiveStock(db: Database, store: Uuid, product: Uuid, quantity: int, unitCost: Option<int>)
    returns (r: Result<Movement, ServiceError>)
    modifies db
    ensures r.Ok? <==> ReceiveStockSpec(old(db.Rows()), store, product, quantity, unitCost).Ok?
    ensures r.Ok? ==> db.Rows() == ReceiveStockSpec(old(db.Rows()), store, product, quantity, unitCost).value
    ensures r.Err? ==>
              db.Rows() == old(db.Rows())
                && ReceiveStockSpec(db.Rows(), store, product, quantity, unitCost) == Err(r.error)
  {
    if product !in db.products { return Err(NotFound); }
    var p := db.products[product];
    if !ValidQuantity(quantity, p.saleUnit, false) { return Err(InvalidStockQuantity); }
    var explicitCost: Option<nat> := None;
    if unitCost.Some? {
      if unitCost.value < 0 { return Err(InvalidStockCost); }
      explicitCost := Some(unitCost.value);
    }
    var lotCost: Option<nat> := None;
    if explicitCost.Some? {
      lotCost := explicitCost;
    } else if p.purchasePrice.Some? && p.purchasePrice.value != 0 {
      lotCost := Some(COST_PER_CENT * p.purchasePrice.value);
    }
    var key := StockKey(store, product);
    var stock := RowAt(db.stocks, key);
    stock := stock.(cost := WeightedAverageCost(stock.quantity, stock.cost, quantity, lotCost));
    stock := stock.(quantity := stock.quantity + quantity);
    db.stocks := db.stocks[key := stock];
    var movement := Movement(key, StockIn, quantity, lotCost, None);
    db.movements := db.movements + [movement];
    if explicitCost.Some? && explicitCost.value != 0 {
      var lastPrice := Some(HalfUp(explicitCost.value, COST_PER_CENT));
      if p.purchasePrice != lastPrice {
        p := p.(purchasePrice := lastPrice);
      }
    }
    db.products := db.products[product := p];
    return Ok(movement);
  }

  /** A receipt is accepted if and only if the product is known, the quantity positive and
      whole where it is sold so, and the cost, if typed, not negative; its units are added,
      and no other stock moves. */
  lemma {:induction false} ReceiptsIff(db: Db, store: Uuid, product: Uuid, quantity: int, unitCost: Option<int>)
    ensures ReceiveStockSpec(db, store, product, quantity, unitCost).Ok? <==>
              && product in db.products && quantity > 0
              && (db.products[product].saleUnit == Unit ==> quantity % 1000 == 0)
              && (unitCost.Some? ==> unitCost.value >= 0)
    ensures ReceiveStockSpec(db, store, product, quantity, unitCost).Ok? ==>
              var rows := ReceiveStockSpec(db, store, product, quantity, unitCost).value.book.rows;
              forall key :: RowAt(rows, key).quantity ==
                            RowAt(db.book.rows, key).quantity + if key == StockKey(store, product) then quantity else 0
  {
  }

  /** Into an empty stock, or one of unknown cost, goods come in at the cost typed, else at
      the last purchase price unless that is zero. */
  lemma {:induction false} CostOfReceipt(db: Db, store: Uuid, product: Uuid, quantity: int, unitCost: Option<int>)
    requires ReceiveStockSpec(db, store, product, quantity, unitCost).Ok?
    requires var row := RowAt(db.book.rows, StockKey(store, product)); row.quantity <= 0 || row.cost.None?
    ensures var before := RowAt(db.book.rows, StockKey(store, product));
            var rows := ReceiveStockSpec(db, store, product, quantity, unitCost).value.book.rows;
            var after := RowAt(rows, StockKey(store, product));
            match (unitCost, db.products[product].purchasePrice)
            case (Some(typed), _) => after.cost.Some? && after.cost.value == typed
            case (None, Some(price)) => after.cost == if price > 0 then Some(COST_PER_CENT * price) else before.cost
            case (None, None) => after.cost == before.cost
  {
  }

  /** A cost typed once is the cost of the next lot that comes without one, to the cent. */
  lemma {:induction false} TypedCostIsRemembered(db: Db, store: Uuid, product: Uuid, first: int, typed: int,
      elsewhere: Uuid, second: int)
    requires typed > 0 && ReceiveStockSpec(db, store, product, first, Some(typed)).Ok?
    requires var now := ReceiveStockSpec(db, store, product, first, Some(typed)).value;
             && ReceiveStockSpec(now, elsewhere, product, second, None).Ok?
             && RowAt(now.book.rows, StockKey(elsewhere, product)).quantity <= 0
    ensures var now := ReceiveStockSpec(db, store, product, first, Some(typed)).value;
            var after := ReceiveStockSpec(now, elsewhere, product, second, None).value;
            var price := HalfUp(typed, COST_PER_CENT);
            RowAt(after.book.rows, StockKey(elsewhere, product)).cost ==
            if price > 0 then Some(COST_PER_CENT * price) else RowAt(now.book.rows, StockKey(elsewhere, product)).cost
  {
    var now := ReceiveStockSpec(db, store, product, first, Some(typed)).value;
    CostOfReceipt(now, elsewhere, product, second, None);
  }

  function AdjustStockSpec(db: Db, store: Uuid, product: Uuid, counted: int): Result<Db, ServiceError> {
    if product !in db.products then Err(NotFound)
    else if !ValidQuantity(counted, db.products[product].saleUnit, true) then Err(InvalidStockQuantity)
    else
      var key := StockKey(store, product);
      var row := RowAt(db.book.rows, key);
      if counted == row.quantity then Ok(db.(book := db.book.(rows := db.book.rows[key := row])))
      else Ok(db.(book := Post(db.book, Movement(key, Adjustment, counted - row.quantity, row.cost, None))))
  }

  method AdjustStock(db: Database, store: Uuid, product: Uuid, counted: int) returns (r: Result<int, ServiceError>)
    modifies db
    ensures r.Ok? <==> AdjustStockSpec(old(db.Rows()), store, product, counted).Ok?
    ensures r.Ok? ==> db.Rows() == AdjustStockSpec(old(db.Rows()), store, product, counted).value
    ensures r.Ok? ==> RowAt(db.stocks, StockKey(store, product)).quantity == counted
    ensures r.Ok? ==> r.value == counted - old(RowAt(db.stocks, StockKey(store, product)).quantity)
    ensures r.Err? ==>
              db.Rows() == old(db.Rows()) && AdjustStockSpec(db.Rows(), store, product, counted) == Err(r.error)
  {
    if product !in db.products { return Err(NotFound); }
    if !ValidQuantity(counted, db.products[product].saleUnit, true) { return Err(InvalidStockQuantity); }
    var key := StockKey(store, product);
    var stock := RowAt(db.stocks, key);
    db.stocks := db.stocks[key := stock];
    var delta := counted - stock.quantity;
    if delta != 0 {
      db.stocks := db.stocks[key := stock.(quantity := counted)];
      db.movements := db.movements + [Movement(key, Adjustment, delta, stock.cost, None)];
    }
    return Ok(delta);
  }

  function SetStockUnitCostSpec(db: Db, key: StockKey, unitCost: Option<int>, hasReason: bool)
      : Result<Db, ServiceError> {
    if key !in db.book.rows then Err(NotFound)
    else if unitCost.None? || unitCost.value <= 0 then Err(InvalidStockCost)
    else
      var row := db.book.rows[key];
      if row.cost == Some(unitCost.value) then Ok(db)
      else if row.cost.Some? && !hasReason then Err(InvalidStockCost)
      else Ok(db.(book := db.book.(
        rows := db.book.rows[key := row.(cost := Some(unitCost.value))],
        changes := db.book.changes + [CostChange(key, row.cost, unitCost.value, row.quantity)])))
  }

  method SetStockUnitCost(db: Database, key: StockKey, unitCost: Option<int>, hasReason: bool)
    returns (r: Result<Option<CostChange>, ServiceError>)
    modifies db
    ensures r.Ok? <==> SetStockUnitCostSpec(old(db.Rows()), key, unitCost, hasReason).Ok?
    ensures r.Ok? ==> db.Rows() == SetStockUnitCostSpec(old(db.Rows()), key, unitCost, hasReason).value
    ensures r.Ok? && r.value.None? ==> db.Rows() == old(db.Rows())
    ensures r.Err? ==>
              db.Rows() == old(db.Rows()) && SetStockUnitCostSpec(db.Rows(), key, unitCost, hasReason) == Err(r.error)
  {
    if key !in db.stocks { return Err(NotFound); }
    var stock := db.stocks[key];
    if unitCost.None? || unitCost.value <= 0 { return Err(InvalidStockCost); }
    var cost: nat := unitCost.value;
    if stock.cost == Some(cost) { return Ok(None); }
    if stock.cost.Some? && !hasReason { return Err(InvalidStockCost); }
    var change := CostChange(key, stock.cost, cost, stock.quantity);
    db.costChanges := db.costChanges + [change];
    db.stocks := db.stocks[key := stock.(cost := Some(cost))];
    return Ok(Some(change));
  }

  /** A count sets the quantity and leaves the average, and every other stock, as it is. */
  lemma {:induction false} CountsIff(db: Db, store: Uuid, product: Uuid, counted: int)
    ensures AdjustStockSpec(db, store, product, counted).Ok? <==>
              && product in db.products && counted >= 0
              && (db.products[product].saleUnit == Unit ==> counted % 1000 == 0)
    ensures AdjustStockSpec(db, store, product, counted).Ok? ==>
              var rows := AdjustStockSpec(db, store, product, counted).value.book.rows;
              forall key :: RowAt(rows, key) ==
                            if key == StockKey(store, product) then RowAt(db.book.rows, key).(quantity := counted)
                            else RowAt(db.book.rows, key)
  {
  }

  /** A cost correction needs an existing stock, a positive cost, and a reason if it replaces
      another cost; it sets the average and leaves the quantity, and every other stock. */
  lemma {:induction false} CorrectionsIff(db: Db, key: StockKey, unitCost: Option<int>, hasReason: bool)
    ensures SetStockUnitCostSpec(db, key, unitCost, hasReason).Ok? <==>
              && key in db.book.rows && unitCost.Some? && unitCost.value > 0
              && (RowAt(db.book.rows, key).cost.Some? && RowAt(db.book.rows, key).cost.value != unitCost.value ==>
                    hasReason)
    ensures SetStockUnitCostSpec(db, key, unitCost, hasReason).Ok? ==>
              var rows := SetStockUnitCostSpec(db, key, unitCost, hasReason).value.book.rows;
              && RowAt(rows, key).cost.Some? && RowAt(rows, key).cost.value == unitCost.value
              && RowAt(rows, key).quantity == RowAt(db.book.rows, key).quantity
              && forall other :: other != key ==> RowAt(rows, other) == RowAt(db.book.rows, other)
    ensures SetStockUnitCostSpec(db, key, unitCost, hasReason).Ok? ==>
              var (row, before) := (RowAt(db.book.rows, key), db.book.changes);
              var after := SetStockUnitCostSpec(db, key, unitCost, hasReason).value.book.changes;
              if row.cost.Some? && row.cost.value == unitCost.value then after == before
              else after == before + [CostChange(key, row.cost, unitCost.value, row.quantity)]
  {
  }
}
