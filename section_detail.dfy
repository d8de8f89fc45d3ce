/**
 * The section detail view (client/components/section-detail.tsx): the list of
 * a section's items with a per-item quantity input, the stock adjustments,
 * additions and deletions made on it, and the activity-log bodies it posts.
 * Each handler computes the new list from the old one with a pure transform
 * below and then replaces the view's state with it.
 */
module SectionDetail {
  import opened Wrappers
  import opened Seqs
  import opened Text
  import opened Json
  import LogSchema

  datatype Section = Section(id: string, name: string, description: string, itemCount: int)

  /** An item as the server sends it. */
  datatype ServerItem = ServerItem(itemId: string, itemname: string, availableCount: int)

  /** An item in the view: the server fields plus the quantity typed in its input. */
  datatype Item = Item(itemId: string, itemname: string, availableCount: int, quantity: int)

  /** The direction of `updateQuantity`: +1 adds stock, -1 removes it. */
  type Multiplier = m: int | m == 1 || m == -1 witness 1

  function Max(a: int, b: int): int {
    if a >= b then a else b
  }

  /** A server item with its quantity input set to 1. */
  function WithQuantityOne(s: ServerItem): Item {
    Item(s.itemId, s.itemname, s.availableCount, 1)
  }

  /** The items loaded from the server: each keeps its fields and gets quantity 1. */
  function LoadedItems(fetched: seq<ServerItem>): (r: seq<Item>)
    ensures |r| == |fetched|
    ensures forall i :: 0 <= i < |r| ==>
      && r[i].itemId == fetched[i].itemId
      && r[i].itemname == fetched[i].itemname
      && r[i].availableCount == fetched[i].availableCount
      && r[i].quantity == 1
  {
    if fetched == [] then [] else [WithQuantityOne(fetched[0])] + LoadedItems(fetched[1..])
  }

  /** `updateQuantity` on one matching item: clamp the new stock at 0, reset the input to 1. */
  function Adjusted(item: Item, multiplier: Multiplier): Item {
    item.(availableCount := Max(0, item.availableCount + multiplier * item.quantity), quantity := 1)
  }

  /** The `items.map` of `updateQuantity`. */
  function AdjustStock(items: seq<Item>, itemId: string, multiplier: Multiplier): (r: seq<Item>)
    ensures |r| == |items|
    ensures forall i :: 0 <= i < |items| && items[i].itemId != itemId ==> r[i] == items[i]
    ensures forall i :: 0 <= i < |items| && items[i].itemId == itemId ==>
      && r[i].itemId == itemId
      && r[i].itemname == items[i].itemname
      && r[i].availableCount == Max(0, items[i].availableCount + multiplier * items[i].quantity)
      && r[i].availableCount >= 0
      && r[i].quantity == 1
  {
    if items == [] then []
    else
      var head := if items[0].itemId == itemId then Adjusted(items[0], multiplier) else items[0];
      [head] + AdjustStock(items[1..], itemId, multiplier)
  }

  /** The quantity input read with `parseInt`: NaN and negative numbers become 0. */
  function ParseQuantity(value: string): (q: int)
    ensures q >= 0
    ensures ParseInt(value).Some? && ParseInt(value).value >= 0 ==> q == ParseInt(value).value
    ensures ParseInt(value).None? || ParseInt(value).value < 0 ==> q == 0
  {
    match ParseInt(value)
    case None => 0
    case Some(n) => if n < 0 then 0 else n
  }

  /** The `prevItems.map` of `handleQuantityChange`. */
  function SetQuantity(items: seq<Item>, itemId: string, quantity: int): (r: seq<Item>)
    ensures |r| == |items|
    ensures forall i :: 0 <= i < |items| && items[i].itemId != itemId ==> r[i] == items[i]
    ensures forall i :: 0 <= i < |items| && items[i].itemId == itemId ==>
      && r[i].itemId == itemId
      && r[i].itemname == items[i].itemname
      && r[i].availableCount == items[i].availableCount
      && r[i].quantity == quantity
  {
    if items == [] then []
    else
      var head := if items[0].itemId == itemId then items[0].(quantity := quantity) else items[0];
      [head] + SetQuantity(items[1..], itemId, quantity)
  }

  /** The `items.filter` of `deleteItem`. */
  function RemoveItem(items: seq<Item>, itemId: string): (r: seq<Item>)
    ensures |r| <= |items|
    ensures forall i :: 0 <= i < |r| ==> r[i].itemId != itemId
  {
    if items == [] then []
    else if items[0].itemId == itemId then RemoveItem(items[1..], itemId)
    else [items[0]] + RemoveItem(items[1..], itemId)
  }

  /** The first item with the given id, which the delete handler names in its log. */
  function FindItem(items: seq<Item>, itemId: string): Option<nat> {
    FirstIndex(items, (it: Item) => it.itemId == itemId)
  }

  /** The session user's name, falling back to "unknown" when there is none or it is empty. */
  function SessionUsername(stored: Option<string>): (name: string)
    ensures name != ""
    ensures stored.Some? && stored.value != "" ==> name == stored.value
    ensures stored.None? || stored.value == "" ==> name == "unknown"
  {
    if stored.Some? && stored.value != "" then stored.value else "unknown"
  }

  /** The activity text of `updateQuantity`. */
  function StockActivity(item: Item, multiplier: Multiplier, sectionName: string): (text: string)
    ensures |text| > 0
  {
    if multiplier == -1 then "removed " + IntToString(item.quantity) + " " + item.itemname + " from " + sectionName
    else "added " + IntToString(item.quantity) + " " + item.itemname + " to " + sectionName
  }

  /** The activity text of `handleAddItem`. */
  function AddActivity(available: int, name: string, sectionName: string): (text: string)
    ensures |text| > 0
  {
    "added " + IntToString(available) + " " + name + " into " + sectionName
  }

  /** The activity text of `deleteItem`; a missing item prints as "undefined". */
  function DeleteActivity(items: seq<Item>, itemId: string, sectionName: string): (text: string)
    ensures |text| > 0
    ensures FindItem(items, itemId).None? ==> text == "deleted undefined from " + sectionName
  {
    var name := match FindItem(items, itemId)
      case Some(k) => items[k].itemname
      case None => "undefined";
    "deleted " + name + " from " + sectionName
  }

  /** The activity text of `handleDeleteSection`. */
  function DeleteSectionActivity(section: Section): (text: string)
    ensures |text| > 0
  {
    "Deleted " + section.name + " section"
  }

  /** The body of every POST to /api/logs/create the view makes. */
  function ActivityBody(username: string, activity: string, count: int): (b: Body)
    ensures username != "" && activity != "" ==>
      LogSchema.Validate(b) == Success(LogSchema.Fields(username, activity, Some(count), username, None))
  {
    var b := map["username" := Str(username), "activity" := Str(activity), "count" := Num(count),
                  "createdBy" := Str(username), "updatedBy" := Null];
    assert Lookup(b, "username") == Some(Str(username)) && Lookup(b, "createdBy") == Some(Str(username));
    assert Lookup(b, "activity") == Some(Str(activity)) && Lookup(b, "count") == Some(Num(count));
    assert Lookup(b, "updatedBy") == Some(Null);
    b
  }

  /** The items a handler matches by id, in list order. */
  function ItemsWithId(items: seq<Item>, itemId: string): (r: seq<Item>)
    ensures |r| <= |items|
    ensures forall i :: 0 <= i < |r| ==> r[i].itemId == itemId
    ensures r == [] <==> FindItem(items, itemId).None?
  {
    if items == [] then []
    else
      assert FindItem(items, itemId).None? <==> items[0].itemId != itemId && FindItem(items[1..], itemId).None?;
      if items[0].itemId == itemId then [items[0]] + ItemsWithId(items[1..], itemId)
      else ItemsWithId(items[1..], itemId)
  }

  /** One stock-change log body per item, in order. */
  function StockBodies(selected: seq<Item>, multiplier: Multiplier, username: string,
                       sectionName: string): (r: seq<Body>)
    ensures |r| == |selected|
    ensures forall k :: 0 <= k < |r| ==>
      r[k] == ActivityBody(username, StockActivity(selected[k], multiplier, sectionName), selected[k].quantity)
  {
    if selected == [] then []
    else
      [ActivityBody(username, StockActivity(selected[0], multiplier, sectionName), selected[0].quantity)]
      + StockBodies(selected[1..], multiplier, username, sectionName)
  }

  /** The log bodies `updateQuantity` posts, one per matching item, from the item before the change. */
  function StockLogs(items: seq<Item>, itemId: string, multiplier: Multiplier, username: string,
                     sectionName: string): (r: seq<Body>)
    ensures |r| == |ItemsWithId(items, itemId)|
    ensures forall k :: 0 <= k < |r| ==>
      var item := ItemsWithId(items, itemId)[k];
      r[k] == ActivityBody(username, StockActivity(item, multiplier, sectionName), item.quantity)
    ensures r == [] <==> FindItem(items, itemId).None?
    ensures username != "" ==> forall b :: b in r ==> LogSchema.Validate(b).Success?
  {
    StockBodies(ItemsWithId(items, itemId), multiplier, username, sectionName)
  }

  /** An item is selected exactly when it is in the list and carries the id. */
  lemma {:induction false} ItemsWithIdMembers(items: seq<Item>, itemId: string)
    ensures forall x :: x in ItemsWithId(items, itemId) <==> x in items && x.itemId == itemId
    decreases |items|
  {
    if items != [] {
      ItemsWithIdMembers(items[1..], itemId);
      assert items == [items[0]] + items[1..];
    }
  }

  /** Selection keeps list order: it distributes over concatenation. */
  lemma {:induction false} ItemsWithIdAppend(a: seq<Item>, b: seq<Item>, itemId: string)
    ensures ItemsWithId(a + b, itemId) == ItemsWithId(a, itemId) + ItemsWithId(b, itemId)
    decreases |a|
  {
    if a == [] {
      assert a + b == b;
    } else {
      assert (a + b)[1..] == a[1..] + b;
      ItemsWithIdAppend(a[1..], b, itemId);
    }
  }

  /** The logs for a list are the logs of its parts, in order. */
  lemma StockLogsAppend(a: seq<Item>, b: seq<Item>, itemId: string, multiplier: Multiplier,
                        username: string, sectionName: string)
    ensures StockLogs(a + b, itemId, multiplier, username, sectionName)
         == StockLogs(a, itemId, multiplier, username, sectionName)
          + StockLogs(b, itemId, multiplier, username, sectionName)
  {
    ItemsWithIdAppend(a, b, itemId);
  }

  /** Selecting by an id no item has selects nothing. */
  lemma {:induction false} NoItemsWithAbsentId(items: seq<Item>, itemId: string)
    requires forall i :: 0 <= i < |items| ==> items[i].itemId != itemId
    ensures ItemsWithId(items, itemId) == []
    decreases |items|
  {
    if items != [] {
      NoItemsWithAbsentId(items[1..], itemId);
    }
  }

  /** With distinct ids, exactly the one item at `k` matches its id. */
  lemma {:induction false} ItemsWithUniqueId(items: seq<Item>, k: nat)
    requires k < |items|
    requires forall j :: 0 <= j < |items| && j != k ==> items[j].itemId != items[k].itemId
    ensures ItemsWithId(items, items[k].itemId) == [items[k]]
    decreases k
  {
    var id := items[k].itemId;
    var tail := items[1..];
    assert forall i :: 0 <= i < |tail| ==> tail[i] == items[i + 1];
    if k == 0 {
      NoItemsWithAbsentId(tail, id);
    } else {
      ItemsWithUniqueId(tail, k - 1);
    }
  }

  /**
   * Pressing + or - on an item whose id is unique posts exactly one log, and
   * the store saves it with that item's activity text and `count` equal to the
   * item's quantity before the change.
   */
  lemma StockLogOfUniqueItem(items: seq<Item>, k: nat, multiplier: Multiplier, username: string,
                             sectionName: string)
    requires k < |items|
    requires forall j :: 0 <= j < |items| && j != k ==> items[j].itemId != items[k].itemId
    requires username != ""
    ensures var logs := StockLogs(items, items[k].itemId, multiplier, username, sectionName);
      && |logs| == 1
      && LogSchema.Validate(logs[0])
         == Success(LogSchema.Fields(username, StockActivity(items[k], multiplier, sectionName),
                                     Some(items[k].quantity), username, None))
  {
    ItemsWithUniqueId(items, k);
  }

  /**
   * The quantity in a stock activity line reads back as the quantity the item
   * had, the same number the entry's `count` carries.
   */
  lemma StockActivityStatesQuantity(item: Item, multiplier: Multiplier, sectionName: string)
    ensures var text := StockActivity(item, multiplier, sectionName);
      var verb := if multiplier == -1 then "removed " else "added ";
      && |verb| < |text| && text[..|verb|] == verb
      && ParseInt(text[|verb|..]) == Some(item.quantity)
  {
    var text := StockActivity(item, multiplier, sectionName);
    var verb := if multiplier == -1 then "removed " else "added ";
    var tail := " " + item.itemname + (if multiplier == -1 then " from " else " to ") + sectionName;
    assert text == verb + (IntToString(item.quantity) + tail);
    ParseIntOfIntToString(item.quantity, tail);
    assert text[|verb|..] == IntToString(item.quantity) + tail;
  }

  /** Typing a non-negative number into the input sets exactly that quantity. */
  lemma TypedQuantityRead(n: nat, tail: string)
    requires tail == [] || !IsDigit(tail[0])
    ensures ParseQuantity(IntToString(n) + tail) == n
  {
    ParseIntOfIntToString(n, tail);
  }

  /** An item survives deletion exactly when it was in the list and has another id. */
  lemma {:induction false} RemoveItemMembers(items: seq<Item>, itemId: string)
    ensures forall x :: x in RemoveItem(items, itemId) <==> x in items && x.itemId != itemId
    decreases |items|
  {
    if items != [] {
      RemoveItemMembers(items[1..], itemId);
      assert items == [items[0]] + items[1..];
    }
  }

  /** Deletion keeps every quantity input non-negative. */
  lemma {:induction false} RemoveItemKeepsQuantities(items: seq<Item>, itemId: string)
    requires forall i :: 0 <= i < |items| ==> items[i].quantity >= 0
    ensures forall i :: 0 <= i < |RemoveItem(items, itemId)| ==> RemoveItem(items, itemId)[i].quantity >= 0
    decreases |items|
  {
    if items != [] {
      RemoveItemKeepsQuantities(items[1..], itemId);
    }
  }

  /** Removing by id keeps the order of what is left: it distributes over concatenation. */
  lemma {:induction false} RemoveItemAppend(a: seq<Item>, b: seq<Item>, itemId: string)
    ensures RemoveItem(a + b, itemId) == RemoveItem(a, itemId) + RemoveItem(b, itemId)
    decreases |a|
  {
    if a == [] {
      assert a + b == b;
    } else {
      assert (a + b)[1..] == a[1..] + b;
      RemoveItemAppend(a[1..], b, itemId);
    }
  }

  /** Removing an id no item has changes nothing. */
  lemma {:induction false} RemoveAbsentItem(items: seq<Item>, itemId: string)
    requires forall i :: 0 <= i < |items| ==> items[i].itemId != itemId
    ensures RemoveItem(items, itemId) == items
    decreases |items|
  {
    if items != [] {
      RemoveAbsentItem(items[1..], itemId);
    }
  }

  /** With server-assigned, distinct ids, deleting removes exactly the one item and keeps the rest in order. */
  lemma {:induction false} RemoveUniqueItem(items: seq<Item>, k: nat)
    requires k < |items|
    requires forall j :: 0 <= j < |items| && j != k ==> items[j].itemId != items[k].itemId
    ensures RemoveItem(items, items[k].itemId) == items[..k] + items[k + 1..]
    decreases k
  {
    var id := items[k].itemId;
    var tail := items[1..];
    if k == 0 {
      assert forall i :: 0 <= i < |tail| ==> tail[i] == items[i + 1];
      RemoveAbsentItem(tail, id);
    } else {
      assert forall i :: 0 <= i < |tail| ==> tail[i] == items[i + 1];
      RemoveUniqueItem(tail, k - 1);
      assert items[..k] == [items[0]] + tail[..k - 1];
      assert items[k + 1..] == tail[k..];
    }
  }

  /** The view's state and the parent's copy of the section it updates through `onUpdateSection`. */
  class SectionDetailView {
    var section: Section
    var items: seq<Item>
    const username: string

    /** Every quantity input holds a non-negative number, and log bodies carry a name. */
    predicate Valid()
      reads this
    {
      && username != ""
      && forall i :: 0 <= i < |items| ==> items[i].quantity >= 0
    }

    /**
     * The view starts with no items. The component reads the session user on
     * every render; the model reads it once, here, and so does not follow a
     * session change while the view is shown.
     */
    constructor (section: Section, sessionUser: Option<string>)
      ensures Valid()
      ensures this.section == section && items == [] && username == SessionUsername(sessionUser)
    {
      this.section := section;
      items := [];
      username := SessionUsername(sessionUser);
    }

    /** The fetch in `useEffect`: every loaded item starts with quantity 1. */
    method Load(fetched: seq<ServerItem>)
      requires Valid()
      modifies this`items
      ensures Valid()
      ensures items == LoadedItems(fetched)
    {
      items := LoadedItems(fetched);
    }

    method UpdateQuantity(itemId: string, multiplier: Multiplier) returns (logs: seq<Body>)
      requires Valid()
      modifies this`items
      ensures Valid()
      ensures items == AdjustStock(old(items), itemId, multiplier)
      ensures logs == StockLogs(old(items), itemId, multiplier, username, section.name)
    {
      logs := StockLogs(items, itemId, multiplier, username, section.name);
      items := AdjustStock(items, itemId, multiplier);
    }

    method HandleQuantityChange(itemId: string, value: string)
      requires Valid()
      modifies this`items
      ensures Valid()
      ensures items == SetQuantity(old(items), itemId, ParseQuantity(value))
    {
      var newQuantity := ParseQuantity(value);
      items := SetQuantity(items, itemId, newQuantity);
    }

    /** After the POST returned `created`: append it and post the activity. */
    method HandleAddItem(created: ServerItem, name: string, available: int) returns (log: Body)
      requires Valid()
      modifies this
      ensures Valid()
      ensures items == old(items) + [WithQuantityOne(created)]
      ensures section == old(section).(itemCount := |old(items)| + 1)
      ensures log == ActivityBody(username, AddActivity(available, name, old(section).name), available)
    {
      var updatedItems := items + [WithQuantityOne(created)];
      items := updatedItems;
      section := section.(itemCount := |updatedItems|);
      log := ActivityBody(username, AddActivity(available, name, section.name), available);
    }

    /** After the DELETE succeeded: drop the item and post the activity. */
    method DeleteItem(itemId: string) returns (log: Body)
      requires Valid()
      modifies this
      ensures Valid()
      ensures items == RemoveItem(old(items), itemId)
      ensures section == old(section).(itemCount := |items|)
      ensures log == ActivityBody(username, DeleteActivity(old(items), itemId, old(section).name), 0)
    {
      log := ActivityBody(username, DeleteActivity(items, itemId, section.name), 0);
      var updatedItems := RemoveItem(items, itemId);
      RemoveItemKeepsQuantities(items, itemId);
      items := updatedItems;
      section := section.(itemCount := |updatedItems|);
    }

    /** After the section DELETE succeeded: the id handed to `onDeleteSection` and the activity posted. */
    method DeleteSection() returns (deletedId: string, log: Body)
      requires Valid()
      ensures deletedId == section.id
      ensures LogSchema.Validate(log) == Success(LogSchema.Fields(username, DeleteSectionActivity(section), Some(0), username, None))
    {
      deletedId := section.id;
      log := ActivityBody(username, DeleteSectionActivity(section), 0);
    }
  }
}
