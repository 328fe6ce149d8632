/** Checklist rows of one task: the statements Start, Claim and Update run on them. */
module Checklist {
  import opened Model

  predicate HasActive(items: seq<Item>) {
    exists i :: 0 <= i < |items| && items[i].status == ItemActive
  }

  predicate HasItem(items: seq<Item>, id: nat) {
    exists i :: 0 <= i < |items| && items[i].id == id
  }

  /** A required item that is neither done nor skipped. */
  predicate OpenRequired(item: Item) {
    item.required && item.status != ItemDone && item.status != ItemSkipped
  }

  /** Positions and ids grow along the list, and at most one item is active. */
  ghost predicate WellFormed(items: seq<Item>, issued: nat) {
    && (forall i, j :: 0 <= i < j < |items| ==> items[i].position < items[j].position && items[i].id < items[j].id)
    && (forall i :: 0 <= i < |items| ==> items[i].id < issued)
    && AtMostOneActive(items)
  }

  ghost predicate AtMostOneActive(items: seq<Item>) {
    forall i, j :: 0 <= i < j < |items| ==> !(items[i].status == ItemActive && items[j].status == ItemActive)
  }

  /** Fresh todo rows with consecutive positions and ids. */
  function NewItems(labels: seq<string>, position: int, id: nat): (items: seq<Item>)
    ensures |items| == |labels|
    ensures forall i :: 0 <= i < |items| ==> items[i] == Item(id + i, labels[i], ItemTodo, position + i, true)
  {
    seq(|labels|, i requires 0 <= i < |labels| => Item(id + i, labels[i], ItemTodo, position + i, true))
  }

  /** UPDATE checklist_items SET status WHERE id. */
  function SetStatus(items: seq<Item>, id: nat, status: ItemStatus): (r: seq<Item>)
    ensures |r| == |items|
    ensures forall i :: 0 <= i < |items| ==> r[i] == if items[i].id == id then items[i].(status := status) else items[i]
  {
    seq(|items|, i requires 0 <= i < |items| => if items[i].id == id then items[i].(status := status) else items[i])
  }

  /** UPDATE checklist_items SET status=todo WHERE status=active. */
  function Deactivate(items: seq<Item>): (r: seq<Item>)
    ensures |r| == |items|
    ensures forall i :: 0 <= i < |items| ==>
      r[i] == if items[i].status == ItemActive then items[i].(status := ItemTodo) else items[i]
    ensures !HasActive(r)
  {
    seq(|items|, i requires 0 <= i < |items| =>
      if items[i].status == ItemActive then items[i].(status := ItemTodo) else items[i])
  }

  /** The index of the todo item with the least position among the first n. */
  function FirstTodo(items: seq<Item>, n: nat): (r: Option<nat>)
    requires n <= |items|
    ensures r.Some? ==> r.value < n && items[r.value].status == ItemTodo
    ensures r.Some? ==> forall i :: 0 <= i < n && items[i].status == ItemTodo ==>
              items[r.value].position <= items[i].position
    ensures r.None? ==> forall i :: 0 <= i < n ==> items[i].status != ItemTodo
  {
    if n == 0 then None
    else
      var best := FirstTodo(items, n - 1);
      if items[n - 1].status == ItemTodo && (best.None? || items[n - 1].position < items[best.value].position)
      then Some(n - 1)
      else best
  }

  /** Activates the first todo item unless an item is active already. */
  function ActivateFirst(items: seq<Item>): (r: seq<Item>)
    ensures |r| == |items|
    ensures HasActive(items) ==> r == items
    ensures (exists i :: 0 <= i < |items| && items[i].status == ItemTodo) ==> HasActive(r)
  {
    var first := FirstTodo(items, |items|);
    if HasActive(items) || first.None? then items
    else
      var r := items[first.value := items[first.value].(status := ItemActive)];
      assert r[first.value].status == ItemActive;
      r
  }

  /** complete_item_ids or skip_item_ids: every named item exists and gets the status. */
  function SetAll(items: seq<Item>, ids: seq<nat>, status: ItemStatus): (r: Result<seq<Item>>)
    decreases |ids|
  {
    if ids == [] then Ok(items)
    else if !HasItem(items, ids[0]) then Err(Validation)
    else SetAll(SetStatus(items, ids[0], status), ids[1..], status)
  }

  /** current_item_id: the active item steps back and the named open one becomes active. */
  function Refocus(items: seq<Item>, id: nat): (r: Result<seq<Item>>) {
    var idle := Deactivate(items);
    if exists i :: 0 <= i < |idle| && idle[i].id == id && idle[i].status != ItemDone && idle[i].status != ItemSkipped
    then Ok(SetStatus(idle, id, ItemActive))
    else Err(Validation)
  }

  /** SELECT COALESCE(MAX(position),-1)+1. */
  function NextPosition(items: seq<Item>): (p: int)
    ensures forall i :: 0 <= i < |items| ==> items[i].position < p
    ensures if items == [] then p == 0 else exists i :: 0 <= i < |items| && p == items[i].position + 1
  {
    if items == [] then 0
    else
      var rest := NextPosition(items[..|items| - 1]);
      var last := items[|items| - 1].position + 1;
      if |items| == 1 || rest < last then last else rest
  }

  predicate ValidLabel(text: string) {
    1 <= |text| <= 300
  }

  function AddAll(items: seq<Item>, labels: seq<string>, id: nat): (r: Result<seq<Item>>) {
    if exists i :: 0 <= i < |labels| && !ValidLabel(labels[i]) then Err(Validation)
    else Ok(items + NewItems(labels, NextPosition(items), id))
  }

  /** complete_item_ids, skip_item_ids and current_item_id, in that order. */
  function Mark(items: seq<Item>, req: UpdateRequest): (r: Result<seq<Item>>) {
    var completed :- SetAll(items, req.completeItems, ItemDone);
    var skipped :- SetAll(completed, req.skipItems, ItemSkipped);
    if req.currentItem.Some? then Refocus(skipped, req.currentItem.value) else Ok(skipped)
  }

  /** Every checklist edit of one Update, in the order its statements run. */
  function Edit(items: seq<Item>, issued: nat, req: UpdateRequest): (r: Result<(seq<Item>, nat)>) {
    var base := if req.checklist.Some? then NewItems(req.checklist.value, 0, issued) else items;
    var next := if req.checklist.Some? then issued + |req.checklist.value| else issued;
    var marked :- Mark(base, req);
    var added :- AddAll(marked, req.addItems, next);
    Ok((added, next + |req.addItems|))
  }

  // ----- What the edits keep -----

  lemma SetStatusKeeps(items: seq<Item>, issued: nat, id: nat, status: ItemStatus)
    requires WellFormed(items, issued)
    requires status == ItemActive ==> !HasActive(items)
    ensures WellFormed(SetStatus(items, id, status), issued)
  {
  }

  lemma {:induction false} SetAllKeeps(items: seq<Item>, issued: nat, ids: seq<nat>, status: ItemStatus)
    requires WellFormed(items, issued) && status != ItemActive
    ensures SetAll(items, ids, status).Ok? ==> WellFormed(SetAll(items, ids, status).value, issued)
    decreases |ids|
  {
    if ids != [] && HasItem(items, ids[0]) {
      SetStatusKeeps(items, issued, ids[0], status);
      SetAllKeeps(SetStatus(items, ids[0], status), issued, ids[1..], status);
    }
  }

  lemma RefocusKeeps(items: seq<Item>, issued: nat, id: nat)
    requires WellFormed(items, issued)
    ensures Refocus(items, id).Ok? ==> WellFormed(Refocus(items, id).value, issued)
  {
    assert WellFormed(Deactivate(items), issued);
    SetStatusKeeps(Deactivate(items), issued, id, ItemActive);
  }

  lemma AppendKeeps(items: seq<Item>, issued: nat, labels: seq<string>)
    requires WellFormed(items, issued)
    ensures WellFormed(items + NewItems(labels, NextPosition(items), issued), issued + |labels|)
  {
  }

  lemma ActivateFirstKeeps(items: seq<Item>, issued: nat)
    requires WellFormed(items, issued)
    ensures WellFormed(ActivateFirst(items), issued)
  {
  }

  lemma NewItemsWellFormed(labels: seq<string>, position: int, id: nat)
    ensures WellFormed(NewItems(labels, position, id), id + |labels|)
  {
  }

  lemma MarkKeeps(items: seq<Item>, issued: nat, req: UpdateRequest)
    requires WellFormed(items, issued) && Mark(items, req).Ok?
    ensures WellFormed(Mark(items, req).value, issued)
  {
    SetAllKeeps(items, issued, req.completeItems, ItemDone);
    var completed := SetAll(items, req.completeItems, ItemDone).value;
    SetAllKeeps(completed, issued, req.skipItems, ItemSkipped);
    if req.currentItem.Some? {
      RefocusKeeps(SetAll(completed, req.skipItems, ItemSkipped).value, issued, req.currentItem.value);
    }
  }

  /** However one Update combines its checklist edits, the list stays well formed. */
  lemma EditKeeps(items: seq<Item>, issued: nat, req: UpdateRequest)
    requires WellFormed(items, issued) && Edit(items, issued, req).Ok?
    ensures WellFormed(Edit(items, issued, req).value.0, Edit(items, issued, req).value.1)
  {
    hide Mark, NewItems, WellFormed;
    var base := if req.checklist.Some? then NewItems(req.checklist.value, 0, issued) else items;
    var next := if req.checklist.Some? then issued + |req.checklist.value| else issued;
    if req.checklist.Some? { NewItemsWellFormed(req.checklist.value, 0, issued); }
    MarkKeeps(base, next, req);
    AppendKeeps(Mark(base, req).value, next, req.addItems);
  }

  // ----- What the edits mean -----

  /** Marking a list of ids succeeds exactly when all exist, and gives exactly those items the status. */
  lemma {:induction false} SetAllMeans(items: seq<Item>, ids: seq<nat>, status: ItemStatus)
    ensures SetAll(items, ids, status).Ok? <==> forall id :: id in ids ==> HasItem(items, id)
    ensures SetAll(items, ids, status).Ok? ==>
              var r := SetAll(items, ids, status).value;
              && |r| == |items|
              && forall k :: 0 <= k < |items| ==>
                   r[k] == items[k].(status := if items[k].id in ids then status else items[k].status)
    decreases |ids|
  {
    if ids != [] {
      var rest := SetStatus(items, ids[0], status);
      SetAllMeans(rest, ids[1..], status);
      assert forall id :: id in ids <==> id == ids[0] || id in ids[1..];
      SameIds(items, rest);
    }
  }

  lemma SameIds(items: seq<Item>, items': seq<Item>)
    requires |items'| == |items| && forall k :: 0 <= k < |items| ==> items'[k].id == items[k].id
    ensures forall id :: HasItem(items, id) <==> HasItem(items', id)
  {
    forall id ensures HasItem(items, id) <==> HasItem(items', id) {
      if i :| 0 <= i < |items| && items[i].id == id { assert items'[i].id == id; }
      if i :| 0 <= i < |items'| && items'[i].id == id { assert items[i].id == id; }
    }
  }

  /** The status an update's item lists give one item: the current item is active, a
      skipped one skipped, a completed one done, a displaced active one todo. */
  function MarkedStatus(item: Item, req: UpdateRequest): ItemStatus {
    if req.currentItem == Some(item.id) then ItemActive
    else if item.id in req.skipItems then ItemSkipped
    else if item.id in req.completeItems then ItemDone
    else if req.currentItem.Some? && item.status == ItemActive then ItemTodo
    else item.status
  }

  /** The item the update wants current exists and is still open after its other edits. */
  ghost predicate MayFocus(items: seq<Item>, req: UpdateRequest) {
    req.currentItem.Some? ==>
      && req.currentItem.value !in req.completeItems && req.currentItem.value !in req.skipItems
      && exists k :: 0 <= k < |items| && items[k].id == req.currentItem.value && items[k].status != ItemDone
          && items[k].status != ItemSkipped
  }

  /** The statement loops succeed exactly when every named item exists and the current
      one is open, and then every item has its closed-form status. */
  lemma MarkMeans(items: seq<Item>, req: UpdateRequest)
    ensures Mark(items, req).Ok? <==>
              && (forall id :: id in req.completeItems ==> HasItem(items, id))
              && (forall id :: id in req.skipItems ==> HasItem(items, id))
              && MayFocus(items, req)
    ensures Mark(items, req).Ok? ==>
              var r := Mark(items, req).value;
              |r| == |items| && forall k :: 0 <= k < |items| ==>
                  r[k] == items[k].(status := MarkedStatus(items[k], req))
  {
    SetAllMeans(items, req.completeItems, ItemDone);
    if SetAll(items, req.completeItems, ItemDone).Ok? {
      var completed := SetAll(items, req.completeItems, ItemDone).value;
      SetAllMeans(completed, req.skipItems, ItemSkipped);
      SameIds(items, completed);
      if SetAll(completed, req.skipItems, ItemSkipped).Ok? && req.currentItem.Some? {
        FocusMeans(items, SetAll(completed, req.skipItems, ItemSkipped).value, req);
      }
    }
  }

  /** The status after the two lists but before the current item is looked at. */
  function ListedStatus(item: Item, req: UpdateRequest): ItemStatus {
    if item.id in req.skipItems then ItemSkipped
    else if item.id in req.completeItems then ItemDone
    else item.status
  }

  lemma FocusMeans(items: seq<Item>, skipped: seq<Item>, req: UpdateRequest)
    requires req.currentItem.Some? && |items| == |skipped|
    requires forall k :: 0 <= k < |items| ==> skipped[k] == items[k].(status := ListedStatus(items[k], req))
    ensures Refocus(skipped, req.currentItem.value).Ok? <==> MayFocus(items, req)
    ensures Refocus(skipped, req.currentItem.value).Ok? ==>
              var r := Refocus(skipped, req.currentItem.value).value;
              |r| == |items| && forall k :: 0 <= k < |items| ==>
                  r[k] == items[k].(status := MarkedStatus(items[k], req))
  {
    FocusAllowed(items, skipped, req);
  }

  lemma FocusAllowed(items: seq<Item>, skipped: seq<Item>, req: UpdateRequest)
    requires req.currentItem.Some? && |items| == |skipped|
    requires forall k :: 0 <= k < |items| ==> skipped[k] == items[k].(status := ListedStatus(items[k], req))
    ensures Refocus(skipped, req.currentItem.value).Ok? <==> MayFocus(items, req)
  {
    var id := req.currentItem.value;
    var idle := Deactivate(skipped);
    forall k | 0 <= k < |items|
      ensures idle[k].id == items[k].id
      ensures idle[k].status != ItemDone && idle[k].status != ItemSkipped <==>
              ListedStatus(items[k], req) != ItemDone && ListedStatus(items[k], req) != ItemSkipped
    {}
    if i :| 0 <= i < |idle| && idle[i].id == id && idle[i].status != ItemDone && idle[i].status != ItemSkipped {
      assert items[i].id == id && items[i].status != ItemDone && items[i].status != ItemSkipped;
    }
    if MayFocus(items, req) {
      var k :| 0 <= k < |items| && items[k].id == id && items[k].status != ItemDone && items[k].status != ItemSkipped;
      assert idle[k].id == id && idle[k].status != ItemDone && idle[k].status != ItemSkipped;
    }
  }
}
