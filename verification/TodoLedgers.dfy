/** The per-request checklist and the `write_todos` tool, its only writer during a loop. */
module TodoLedgers {
  import opened Ordering
  import opened Wrappers

  datatype TodoItem = TodoItem(title: string, status: string, note: string)

  /** One element of the tool's `items` argument, as the model sent it. */
  datatype RawItem = NotAnObject | RawItem(title: string, status: string, note: string)

  datatype Rewrite = Refused | Replaced(items: seq<TodoItem>)

  const STATUSES: set<string> := {"pending", "in_progress", "done", "blocked", "cancelled"}

  predicate IsOpen(item: TodoItem) {
    item.status == "pending" || item.status == "in_progress"
  }

  /** The items that block `submit_changes`. */
  function Pending(items: seq<TodoItem>): (open: seq<TodoItem>)
    ensures open == [] <==>
            forall i | 0 <= i < |items| :: items[i].status != "pending" && items[i].status != "in_progress"
  {
    if items == [] then []
    else
      var before := Pending(items[..|items| - 1]);
      var last := items[|items| - 1];
      if IsOpen(last) then before + [last] else before
  }

  /** The statuses an item may have: two are open, three are closed. */
  predicate Known(items: seq<TodoItem>) {
    forall i | 0 <= i < |items| ::
      items[i].status in {"pending", "in_progress", "done", "blocked", "cancelled"}
  }

  function HoldsUp(): TodoItem -> bool {
    (item: TodoItem) => item.status == "pending" || item.status == "in_progress"
  }

  /** The listing holds exactly the pending and in-progress items, in their order. */
  lemma {:induction false} PendingListing(items: seq<TodoItem>)
    ensures IsSelection(items, Pending(items), HoldsUp())
  {
    hide IsSelection;
    if items == [] {
      SelectionOfNone(HoldsUp());
    } else {
      var n := |items| - 1;
      PendingListing(items[..n]);
      SelectionSnoc(items[..n], Pending(items[..n]), HoldsUp(), items[n]);
      assert items == items[..n] + [items[n]];
    }
  }

  /** Nothing blocks a submit exactly when every item is done, blocked or cancelled. */
  lemma NothingPendingIff(items: seq<TodoItem>)
    ensures Pending(items) == [] <==>
            forall i | 0 <= i < |items| :: items[i].status != "pending" && items[i].status != "in_progress"
    ensures Known(items) ==>
              (Pending(items) == [] <==>
               forall i | 0 <= i < |items| :: items[i].status in {"done", "blocked", "cancelled"})
  {
    PendingListing(items);
    SelectedIffWanted(items, Pending(items), HoldsUp());
    hide Pending, IsSelection;
    if Pending(items) != [] {
      var item := Pending(items)[0];
      assert item in Pending(items);
      var i :| 0 <= i < |items| && items[i] == item;
    } else {
      forall i | 0 <= i < |items| ensures items[i].status != "pending" && items[i].status != "in_progress" {
        assert items[i] in items;
      }
    }
  }

  predicate Acceptable(strip: string -> string, raw: RawItem) {
    raw.RawItem? && strip(raw.title) != "" && raw.status in STATUSES
  }

  function Cleaned(strip: string -> string, raw: RawItem): TodoItem
    requires raw.RawItem?
  {
    TodoItem(strip(raw.title), raw.status, raw.note)
  }

  /** `rewrite` is the tool's effect on the ledger: the whole list replaced, item by item, or nothing. */
  ghost predicate Rewrites(strip: string -> string, raw: seq<RawItem>, rewrite: Rewrite) {
    if raw != [] && forall i | 0 <= i < |raw| :: Acceptable(strip, raw[i]) then
      && rewrite.Replaced? && |rewrite.items| == |raw|
      && forall i | 0 <= i < |raw| :: rewrite.items[i] == Cleaned(strip, raw[i])
    else rewrite.Refused?
  }

  // ---- the stored copy ----

  /** What is stored for a ledger: nothing for an empty one. */
  function Kept(items: seq<TodoItem>): Option<seq<TodoItem>> {
    if items == [] then None else Some(items)
  }

  /** The ledger a loop starts with. */
  function Loaded(stored: Option<seq<TodoItem>>): seq<TodoItem> {
    if stored.None? then [] else stored.value
  }

  lemma KeptLoads(items: seq<TodoItem>)
    ensures Loaded(Kept(items)) == items
  {
  }

  /** The ledger of a running loop, and the copy in the store that it writes through to. */
  class TodoLedger {
    var items: seq<TodoItem>
    var stored: Option<seq<TodoItem>>

    constructor (stored: Option<seq<TodoItem>>)
      ensures items == Loaded(stored) && this.stored == stored
    {
      this.items := Loaded(stored);
      this.stored := stored;
    }

    /** A full-list rewrite, written through to the store; one bad item leaves both as they were. */
    method WriteTodos(strip: string -> string, raw: seq<RawItem>) returns (rewrite: Rewrite)
      modifies this
      ensures Rewrites(strip, raw, rewrite)
      ensures items == if rewrite.Replaced? then rewrite.items else old(items)
      ensures stored == if rewrite.Replaced? then Some(rewrite.items) else old(stored)
      ensures old(stored == Kept(items)) ==> stored == Kept(items)
      ensures rewrite.Replaced? ==> |items| == |raw| > 0 && Known(items)
      ensures rewrite.Replaced? ==> forall i | 0 <= i < |raw| ::
                && raw[i].RawItem? && items[i].title == strip(raw[i].title) != ""
                && items[i].status == raw[i].status && items[i].note == raw[i].note
      ensures rewrite.Refused? ==>
                raw == []
                || exists item :: item in raw
                     && (item.NotAnObject? || strip(item.title) == ""
                         || item.status !in {"pending", "in_progress", "done", "blocked", "cancelled"})
    {
      if raw == [] {
        return Refused;
      }
      var newItems: seq<TodoItem> := [];
      for i := 0 to |raw|
        invariant |newItems| == i && items == old(items) && stored == old(stored)
        invariant forall j | 0 <= j < i :: Acceptable(strip, raw[j]) && newItems[j] == Cleaned(strip, raw[j])
      {
        if raw[i].NotAnObject? || strip(raw[i].title) == "" || raw[i].status !in STATUSES {
          assert !Acceptable(strip, raw[i]);
          return Refused;
        }
        newItems := newItems + [TodoItem(strip(raw[i].title), raw[i].status, raw[i].note)];
      }
      items := newItems;
      stored := Some(newItems);
      rewrite := Replaced(newItems);
    }

    /** At the end of a loop: a finished request drops the stored list, an unfinished one keeps it. */
    method Settle(finished: bool)
      modifies this`stored
      ensures stored == if finished then None else Kept(items)
      ensures !finished ==> Loaded(stored) == items
    {
      stored := if finished || items == [] then None else Some(items);
    }
  }
}
