/** The new-query form: its list of item rows (edited, added and removed by
    position) and the draft it hands to the queries screen on submit, after
    which it starts over blank. */
module QueryForm {
  import opened Base
  import opened Model
  import opened Lists

  /** The form's state: the customer's details and the item rows. */
  datatype QueryFormState = QueryFormState(
    customerName: string,
    phoneNumber: string,
    description: string,
    items: seq<QueryItem>)

  /** `QueryDraft`: a query without its id. */
  datatype QueryDraft = QueryDraft(
    customerName: string,
    phoneNumber: string,
    description: string,
    items: seq<QueryItem>,
    date: string)

  /** `emptyItem()`. */
  function EmptyItem(): QueryItem {
    QueryItem("")
  }

  /** The form as first shown and as left after a submit: blank details and
      one empty row. */
  function Blank(): (f: QueryFormState)
    ensures |f.items| == 1 && f.items[0].description == ""
  {
    QueryFormState("", "", "", [EmptyItem()])
  }

  /** `handleItemChange`: the row at `index` gets the new description and
      every other row is kept; an index outside the list changes nothing. */
  function ItemChange(items: seq<QueryItem>, index: int, value: string): (r: seq<QueryItem>)
    ensures |r| == |items|
    ensures forall k :: 0 <= k < |r| && k != index ==> r[k] == items[k]
    ensures 0 <= index < |r| ==> r[index].description == value
  {
    seq(|items|, k requires 0 <= k < |items| => if k == index then items[k].(description := value) else items[k])
  }

  /** Setting a row to the text it already has changes nothing, and setting
      it twice is setting it once with the second value. */
  lemma ItemChangeLaws(items: seq<QueryItem>, index: int, v: string, w: string)
    ensures 0 <= index < |items| ==> ItemChange(items, index, items[index].description) == items
    ensures ItemChange(ItemChange(items, index, v), index, w) == ItemChange(items, index, w)
    ensures !(0 <= index < |items|) ==> ItemChange(items, index, v) == items
  {
    if 0 <= index < |items| {
      assert ItemChange(items, index, items[index].description) == items;
    }
    assert ItemChange(ItemChange(items, index, v), index, w) == ItemChange(items, index, w);
  }

  /** `addItem`: one more empty row at the end. */
  function AddItem(items: seq<QueryItem>): (r: seq<QueryItem>)
    ensures |r| == |items| + 1 && r[..|items|] == items && r[|items|] == EmptyItem()
  {
    items + [EmptyItem()]
  }

  /** `removeItem`: `prev.filter((_, idx) => idx !== index)`, built from the
      front so that each kept row keeps its relative place. */
  function RemoveItem(items: seq<QueryItem>, index: int): (r: seq<QueryItem>)
    ensures |r| == if 0 <= index < |items| then |items| - 1 else |items|
    decreases |items|
  {
    if items == [] then []
    else (if index == 0 then [] else [items[0]]) + RemoveItem(items[1..], index - 1)
  }

  /** An index outside the list removes nothing. */
  lemma {:induction false} RemoveItemOutside(items: seq<QueryItem>, index: int)
    requires !(0 <= index < |items|)
    ensures RemoveItem(items, index) == items
    decreases |items|
  {
    if items != [] {
      RemoveItemOutside(items[1..], index - 1);
      assert items == [items[0]] + items[1..];
    }
  }

  /** An index inside the list removes exactly that row: the rows before it
      and the rows after it follow each other, in order. */
  lemma {:induction false} RemoveItemInside(items: seq<QueryItem>, index: int)
    requires 0 <= index < |items|
    ensures RemoveItem(items, index) == items[..index] + items[index + 1..]
    decreases |items|
  {
    var rest := items[1..];
    if index == 0 {
      RemoveItemOutside(rest, -1);
      assert RemoveItem(items, index) == [] + rest;
    } else {
      assert RemoveItem(items, index) == [items[0]] + RemoveItem(rest, index - 1);
      RemoveItemInside(rest, index - 1);
      assert rest[..index - 1] == items[1..index];
      assert rest[index..] == items[index + 1..];
      assert [items[0]] + items[1..index] == items[..index];
    }
  }

  /** Adding a row and then removing it gives the rows back. */
  lemma RemoveAddedItem(items: seq<QueryItem>)
    ensures RemoveItem(AddItem(items), |items|) == items
  {
    var added := AddItem(items);
    RemoveItemInside(added, |items|);
    assert added[..|items|] == items && added[|items| + 1..] == [];
  }

  /** `item.description.trim().length > 0`. */
  predicate Described(item: QueryItem) {
    |Trim(item.description)| > 0
  }

  /** The rows sent: the described ones, or every row when none is. */
  function SubmittedItems(items: seq<QueryItem>): (r: seq<QueryItem>)
    ensures |r| <= |items|
  {
    var sanitized := Filter(items, Described);
    if |sanitized| > 0 then sanitized else items
  }

  /** When some row is described, exactly the described rows are sent, each
      as often as it appears; when none is, the rows are sent as they are. */
  lemma SubmittedItemsSpec(items: seq<QueryItem>, x: QueryItem)
    ensures (exists i :: 0 <= i < |items| && Described(items[i])) ==>
      (forall k :: 0 <= k < |SubmittedItems(items)| ==> Described(SubmittedItems(items)[k]))
      && multiset(SubmittedItems(items))[x] == if Described(x) then multiset(items)[x] else 0
    ensures (forall i :: 0 <= i < |items| ==> !Described(items[i])) ==> SubmittedItems(items) == items
  {
    FilterEmpty(items, Described);
    FilterCount(items, Described, x);
  }

  /** `handleSubmit`: the draft stamped with today's date (`today` is
      `formatDateISO()` at that moment), and the form reset to blank. */
  function Submit(form: QueryFormState, today: string): (r: (QueryDraft, QueryFormState))
    ensures r.1 == Blank()
    ensures r.0.customerName == form.customerName && r.0.phoneNumber == form.phoneNumber
    ensures r.0.description == form.description && r.0.date == today
    ensures r.0.items == SubmittedItems(form.items)
  {
    (QueryDraft(form.customerName, form.phoneNumber, form.description, SubmittedItems(form.items), today),
     Blank())
  }

  /** Submitting the blank form sends its one empty row. */
  lemma SubmitBlank(today: string)
    ensures Submit(Blank(), today).0.items == [EmptyItem()]
  {
    assert Trim("") == "";
    assert !Described(EmptyItem());
    SubmittedItemsSpec(Blank().items, EmptyItem());
  }
}
