/** What a search answers, said of the answer itself: which routes, how many, and in what order. */
module SearchAnswers {
  import opened Rows
  import opened Ordering
  import opened Search

  predicate Shows(page: RoutePage, r: nat) { exists i :: 0 <= i < |page.items| && page.items[i].id == r }

  /** A route is on some page of a search exactly when it is in the table, is active, and its origin and destination
      match the filters given; a missing or empty filter restricts nothing. */
  lemma ShownIff(db: Db, q: Query, like: Like, r: nat)
    ensures (exists page: Positive :: Shows(ListActive(db, q.(page := page), like), r))
       <==> && r in db.routes && db.routes[r].active
            && (q.origin == None || q.origin == Some("") || like(q.origin.value, db.routes[r].origin))
            && (q.destination == None || q.destination == Some("")
                || like(q.destination.value, db.routes[r].destination))
  {
    hide PageOf, Items;
    var ids := AllIds(db, q.origin, q.destination, like);
    var keys := Departures(db, q.origin, q.destination, like);
    if page: Positive :| Shows(ListActive(db, q.(page := page), like), r) {
      ShownIsSelected(db, q.(page := page), like, r);
      assert r in keys;
    }
    if r in keys {
      assert r in ids;
      var i :| 0 <= i < |ids| && ids[i] == r;
      var page := PageIndex(i, |ids|, q.size);
      OnPage(ids, page, q.size, i);
      SelectedIsShown(db, q.(page := page), like, r);
    }
  }

  lemma ShownIsSelected(db: Db, q: Query, like: Like, r: nat)
    requires Shows(ListActive(db, q, like), r)
    ensures r in AllIds(db, q.origin, q.destination, like)
  {
    hide PageOf, Items, AllIds;
    var cut := PageOf(AllIds(db, q.origin, q.destination, like), q.page, q.size);
    var i :| 0 <= i < |cut| && cut[i] == r;
  }

  lemma SelectedIsShown(db: Db, q: Query, like: Like, r: nat)
    requires r in PageOf(AllIds(db, q.origin, q.destination, like), q.page, q.size)
    ensures Shows(ListActive(db, q, like), r)
  {
    hide PageOf, Items, AllIds;
    var cut := PageOf(AllIds(db, q.origin, q.destination, like), q.page, q.size);
    var i :| 0 <= i < |cut| && cut[i] == r;
    assert ListActive(db, q, like).items[i].id == r;
  }

  /** `total` is how many such routes there are. */
  lemma TotalCounts(db: Db, q: Query, like: Like)
    ensures ListActive(db, q, like).total
         == |set r | r in db.routes && db.routes[r].active
                     && (q.origin == None || q.origin == Some("") || like(q.origin.value, db.routes[r].origin))
                     && (q.destination == None || q.destination == Some("")
                         || like(q.destination.value, db.routes[r].destination))|
  {
    hide Items, PageOf;
    var keys := Departures(db, q.origin, q.destination, like);
    assert keys.Keys == set r | r in db.routes && db.routes[r].active
                                && (q.origin == None || q.origin == Some("")
                                    || like(q.origin.value, db.routes[r].origin))
                                && (q.destination == None || q.destination == Some("")
                                    || like(q.destination.value, db.routes[r].destination));
    assert |keys| == |keys.Keys|;
  }

  /** A page repeats the request's page and size, holds `size` routes or what is left of them, and shows each with the
      columns it has in the table. */
  lemma PageHolds(db: Db, q: Query, like: Like)
    ensures var out := ListActive(db, q, like);
            && out.page == q.page && out.size == q.size
            && |out.items| == (var before := (q.page - 1) * q.size;
                               if out.total <= before then 0
                               else if out.total - before < q.size then out.total - before else q.size)
            && forall i :: 0 <= i < |out.items| ==>
                 out.items[i].id in db.routes && out.items[i].route == db.routes[out.items[i].id]
  {
    hide Items, AllIds;
  }

  /** Along the pages joined in order, whichever their number, departures never go back and no route comes twice. */
  lemma PagesInOrder(db: Db, q: Query, like: Like, pages: nat)
    ensures var items := JoinedItems(db, q, like, pages);
            forall i, j :: 0 <= i < j < |items| ==>
              items[i].route.departure <= items[j].route.departure && items[i].id != items[j].id
  {
    hide PageOf;
    var ids := AllIds(db, q.origin, q.destination, like);
    var keys := Departures(db, q.origin, q.destination, like);
    JoinedItemsAre(db, q, like, pages);
    JoinedIsPrefix(ids, q.size, pages);
    var cut := Joined(ids, q.size, pages);
    forall i, j | 0 <= i < j < |cut|
      ensures cut[i] in db.routes && cut[j] in db.routes && cut[i] != cut[j]
              && db.routes[cut[i]].departure <= db.routes[cut[j]].departure
    {
      assert cut[i] == ids[i] && cut[j] == ids[j];
      assert Before(keys, ids[i], ids[j]);
    }
  }
}
