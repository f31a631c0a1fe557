/** Incremental download of the catalogue, page by page behind a time cursor. */
module Pull {
  import opened Sums
  import opened Tables

  const PULL_PAGE_SIZE := 1000

  datatype ProductRow = ProductRow(id: Uuid, updatedAt: Instant)

  /** `order_by("updated_at", "id")`: rows of one instant follow their identifiers. */
  predicate InOrder(rows: seq<ProductRow>) {
    forall i, j :: 0 <= i < j < |rows| ==>
      rows[i].updatedAt < rows[j].updatedAt || (rows[i].updatedAt == rows[j].updatedAt && rows[i].id < rows[j].id)
  }

  function NewerThan(since: Option<Instant>): ProductRow -> bool {
    (row: ProductRow) => since.None? || row.updatedAt > since.value
  }

  function Changed(rows: seq<ProductRow>, since: Option<Instant>): seq<ProductRow> {
    Filter(rows, NewerThan(since))
  }

  datatype Page = Page(cursor: Instant, changes: seq<ProductRow>)

  /** A full page ends at its last row's instant; a short one at the instant of the query. */
  function PullCatalogChanges(rows: seq<ProductRow>, since: Option<Instant>, now: Instant): Page {
    var changed := Changed(rows, since);
    if |changed| >= PULL_PAGE_SIZE then Page(changed[PULL_PAGE_SIZE - 1].updatedAt, changed[..PULL_PAGE_SIZE])
    else Page(now, changed)
  }

  /** A page has a thousand rows at most, and fewer only if nothing more has changed. */
  lemma {:induction false} PageOfAThousand(rows: seq<ProductRow>, since: Option<Instant>, now: Instant)
    ensures var (page, changed) := (PullCatalogChanges(rows, since, now), Changed(rows, since));
            |page.changes| <= 1000 && page.changes <= changed && (|page.changes| < 1000 ==> page.changes == changed)
  {
  }

  // ---------- Following the cursor ----------

  lemma {:induction false} NewerSuffix(rows: seq<ProductRow>, since: Option<Instant>)
    requires InOrder(rows)
    ensures |Changed(rows, since)| <= |rows|
    ensures Changed(rows, since) == rows[|rows| - |Changed(rows, since)|..]
    ensures forall i :: 0 <= i < |rows| - |Changed(rows, since)| ==> !NewerThan(since)(rows[i])
    ensures forall i :: |rows| - |Changed(rows, since)| <= i < |rows| ==> NewerThan(since)(rows[i])
  {
    if |rows| > 0 {
      var front := rows[..|rows| - 1];
      assert InOrder(front);
      NewerSuffix(front, since);
      if !NewerThan(since)(rows[|rows| - 1]) {
        forall i | 0 <= i < |front| ensures !NewerThan(since)(front[i]) {
        }
        FilterNone(front, NewerThan(since));
      }
    }
  }

  /** The rows a cursor taken on row `at` leaves to come. */
  lemma {:induction false} LaterRows(rows: seq<ProductRow>, at: nat)
    requires InOrder(rows) && at < |rows|
    ensures var later := Changed(rows, Some(rows[at].updatedAt));
            && |later| < |rows| - at
            && later == rows[|rows| - |later|..]
            && (|later| == |rows| - at - 1 <==> (at + 1 < |rows| ==> rows[at].updatedAt < rows[at + 1].updatedAt))
  {
    NewerSuffix(rows, Some(rows[at].updatedAt));
  }

  /** What a cursor leaves to come may be looked for among the rows still to come. */
  lemma {:induction false} ChangedWithin(rows: seq<ProductRow>, since: Option<Instant>, cursor: Instant)
    requires since.Some? ==> since.value <= cursor
    ensures Changed(rows, Some(cursor)) == Changed(Changed(rows, since), Some(cursor))
  {
    if |rows| > 0 {
      var front, last := rows[..|rows| - 1], rows[|rows| - 1];
      ChangedWithin(front, since, cursor);
      assert rows == front + [last];
      FilterPush(Changed(front, since), last, NewerThan(Some(cursor)));
    }
  }

  lemma {:induction false} ChangedInOrder(rows: seq<ProductRow>, since: Option<Instant>)
    requires InOrder(rows)
    ensures InOrder(Changed(rows, since))
    ensures forall i :: 0 <= i < |Changed(rows, since)| ==> NewerThan(since)(Changed(rows, since)[i])
  {
    NewerSuffix(rows, since);
  }

  /** After a full page the next call starts past the page, and right after it exactly
      when the page does not end inside a group of rows of one instant. */
  lemma {:induction false} NextPage(rows: seq<ProductRow>, since: Option<Instant>)
    requires InOrder(rows) && |Changed(rows, since)| >= PULL_PAGE_SIZE
    ensures var c := Changed(rows, since);
            var later := Changed(rows, Some(c[PULL_PAGE_SIZE - 1].updatedAt));
            && |later| <= |c| - PULL_PAGE_SIZE
            && later == c[|c| - |later|..]
            && (|later| == |c| - PULL_PAGE_SIZE <==>
                  (PULL_PAGE_SIZE < |c| ==> c[PULL_PAGE_SIZE - 1].updatedAt < c[PULL_PAGE_SIZE].updatedAt))
  {
    var c := Changed(rows, since);
    ChangedInOrder(rows, since);
    assert NewerThan(since)(c[PULL_PAGE_SIZE - 1]);
    ChangedWithin(rows, since, c[PULL_PAGE_SIZE - 1].updatedAt);
    LaterRows(c, PULL_PAGE_SIZE - 1);
  }

  /** Everything delivered by calling again with the returned cursor until a page is
      short, over a catalogue that does not change meanwhile. */
  function Delivered(rows: seq<ProductRow>, since: Option<Instant>, now: Instant): seq<ProductRow>
    requires InOrder(rows)
    decreases |Changed(rows, since)|
  {
    var page := PullCatalogChanges(rows, since, now);
    if |page.changes| < PULL_PAGE_SIZE then page.changes
    else
      NextPage(rows, since);
      page.changes + Delivered(rows, Some(page.cursor), now)
  }

  /** No group of rows of one instant is cut by a page boundary. */
  predicate NoGroupSplit(changed: seq<ProductRow>) {
    forall k :: 0 < k < |changed| && PULL_PAGE_SIZE * k < |changed| ==> Boundary(changed, k)
  }

  predicate Boundary(changed: seq<ProductRow>, k: nat)
    requires k > 0 && PULL_PAGE_SIZE * k < |changed|
  {
    changed[PULL_PAGE_SIZE * k - 1].updatedAt < changed[PULL_PAGE_SIZE * k].updatedAt
  }

  /** Every delivered row is a changed row, and none comes twice. */
  lemma {:induction false} NeverTwice(rows: seq<ProductRow>, since: Option<Instant>, now: Instant)
    requires InOrder(rows)
    ensures |Delivered(rows, since, now)| <= |Changed(rows, since)|
    ensures InOrder(Delivered(rows, since, now))
    ensures forall r :: r in Delivered(rows, since, now) ==> r in Changed(rows, since)
    decreases |Changed(rows, since)|
  {
    var c := Changed(rows, since);
    ChangedInOrder(rows, since);
    if |c| >= PULL_PAGE_SIZE {
      NextPage(rows, since);
      var cursor := c[PULL_PAGE_SIZE - 1].updatedAt;
      NeverTwice(rows, Some(cursor), now);
      ChangedInOrder(rows, Some(cursor));
      PagesInOrder(c, Delivered(rows, Some(cursor), now), Changed(rows, Some(cursor)), cursor);
    }
  }

  lemma {:induction false} PagesInOrder(c: seq<ProductRow>, rest: seq<ProductRow>, later: seq<ProductRow>,
      cursor: Instant)
    requires InOrder(c) && |c| >= PULL_PAGE_SIZE && cursor == c[PULL_PAGE_SIZE - 1].updatedAt && InOrder(rest)
    requires |later| <= |c| && later == c[|c| - |later|..] && forall r :: r in rest ==> r in later
    requires forall i :: 0 <= i < |later| ==> later[i].updatedAt > cursor
    ensures InOrder(c[..PULL_PAGE_SIZE] + rest)
    ensures forall r :: r in c[..PULL_PAGE_SIZE] + rest ==> r in c
  {
    forall j | 0 <= j < |rest| ensures rest[j] in c && rest[j].updatedAt > cursor {
      assert rest[j] in rest;
      var i :| 0 <= i < |later| && later[i] == rest[j];
      assert c[|c| - |later| + i] == rest[j];
    }
    forall i | 0 <= i < PULL_PAGE_SIZE ensures c[i].updatedAt <= cursor {
    }
  }

  lemma {:induction false} SplitsOfRest(c: seq<ProductRow>)
    requires |c| >= PULL_PAGE_SIZE
    ensures NoGroupSplit(c) <==> NoGroupSplit(c[PULL_PAGE_SIZE..]) && (PULL_PAGE_SIZE < |c| ==> Boundary(c, 1))
  {
    var rest := c[PULL_PAGE_SIZE..];
    forall k: nat | 0 < k && PULL_PAGE_SIZE * k < |rest| ensures Boundary(rest, k) <==> Boundary(c, k + 1) {
      assert PULL_PAGE_SIZE * (k + 1) == PULL_PAGE_SIZE * k + PULL_PAGE_SIZE;
    }
    if NoGroupSplit(rest) && (PULL_PAGE_SIZE < |c| ==> Boundary(c, 1)) {
      forall k | 0 < k < |c| && PULL_PAGE_SIZE * k < |c| ensures Boundary(c, k) {
        if k > 1 { assert Boundary(rest, k - 1); }
      }
    }
    if NoGroupSplit(c) {
      forall k | 0 < k < |rest| && PULL_PAGE_SIZE * k < |rest| ensures Boundary(rest, k) {
        assert Boundary(c, k + 1);
      }
    }
  }

  /** Following the cursor delivers every changed product, in order and once, if and only
      if no group of equal instants is split by a page boundary: otherwise the rest of the
      group is skipped. */
  lemma {:induction false} DeliversAllIff(rows: seq<ProductRow>, since: Option<Instant>, now: Instant)
    requires InOrder(rows)
    ensures Delivered(rows, since, now) == Changed(rows, since) <==> NoGroupSplit(Changed(rows, since))
    decreases |Changed(rows, since)|
  {
    var c := Changed(rows, since);
    if |c| >= PULL_PAGE_SIZE {
      NextPage(rows, since);
      var cursor := c[PULL_PAGE_SIZE - 1].updatedAt;
      var later, rest := Changed(rows, Some(cursor)), Delivered(rows, Some(cursor), now);
      DeliversAllIff(rows, Some(cursor), now);
      NeverTwice(rows, Some(cursor), now);
      SplitsOfRest(c);
      assert c == c[..PULL_PAGE_SIZE] + c[PULL_PAGE_SIZE..];
      assert Delivered(rows, since, now) == c[..PULL_PAGE_SIZE] + rest;
      if |later| == |c| - PULL_PAGE_SIZE {
        assert later == c[PULL_PAGE_SIZE..];
        assert Delivered(rows, since, now)[PULL_PAGE_SIZE..] == rest;
      }
    }
  }

  /** One instant for one product more than a page: the last one is never delivered. */
  lemma {:induction false} BulkUpdateSkips(now: Instant)
    ensures var rows := seq(PULL_PAGE_SIZE + 1, i requires 0 <= i => ProductRow(i, 5));
            InOrder(rows) && Changed(rows, None) == rows && Delivered(rows, None, now) != rows
  {
    var rows := seq(PULL_PAGE_SIZE + 1, i requires 0 <= i => ProductRow(i, 5));
    FilterAll(rows, NewerThan(None));
    DeliversAllIff(rows, None, now);
    assert !Boundary(rows, 1);
  }

  // ---------- One round after another ----------

  /** The cursor kept once a page came short. */
  function FinalCursor(rows: seq<ProductRow>, since: Option<Instant>, now: Instant): Instant
    requires InOrder(rows)
    decreases |Changed(rows, since)|
  {
    var page := PullCatalogChanges(rows, since, now);
    if |page.changes| < PULL_PAGE_SIZE then page.cursor
    else
      NextPage(rows, since);
      FinalCursor(rows, Some(page.cursor), now)
  }

  lemma {:induction false} RoundEndsNow(rows: seq<ProductRow>, since: Option<Instant>, now: Instant)
    requires InOrder(rows)
    ensures FinalCursor(rows, since, now) == now
    decreases |Changed(rows, since)|
  {
    if |Changed(rows, since)| >= PULL_PAGE_SIZE {
      NextPage(rows, since);
      RoundEndsNow(rows, Some(Changed(rows, since)[PULL_PAGE_SIZE - 1].updatedAt), now);
    }
  }

  lemma {:induction false} InFilterIff(rows: seq<ProductRow>, since: Option<Instant>, r: ProductRow)
    ensures r in Changed(rows, since) <==> r in rows && NewerThan(since)(r)
  {
    if |rows| > 0 {
      InFilterIff(rows[..|rows| - 1], since, r);
      assert rows == rows[..|rows| - 1] + [rows[|rows| - 1]];
    }
  }

  /** Two rounds one after the other, over a catalogue that changed in between, every change
      dated after the first: the second delivers the changed rows and nothing else, as long
      as no page of it cuts a group. */
  lemma {:induction false} SecondRound(rows: seq<ProductRow>, since: Option<Instant>, now: Instant,
      later: seq<ProductRow>, next: Instant)
    requires InOrder(rows) && InOrder(later) && forall r :: r in rows ==> r.updatedAt <= now
    requires forall r :: r in later && r !in rows ==> r.updatedAt > now
    requires NoGroupSplit(Changed(later, Some(FinalCursor(rows, since, now))))
    ensures forall r :: r in Delivered(later, Some(FinalCursor(rows, since, now)), next) <==> r in later && r !in rows
  {
    RoundEndsNow(rows, since, now);
    DeliversAllIff(later, Some(now), next);
    forall r ensures r in Changed(later, Some(now)) <==> r in later && r !in rows { InFilterIff(later, Some(now), r); }
  }
}
