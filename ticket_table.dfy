/** The ticket table behind the repository interface, kept to what callers
    can observe: a conditional put, a get by key, a query on the status
    index, a full scan and an update of two attributes. Records are stored
    as items, with status and priority as the strings they are in the
    table, and every record read back goes through the entity constructor
    again. */
module TicketTable {
  import opened Wrappers
  import opened Errors
  import opened StatusPolicy
  import Priority
  import opened TicketEntity

  /** A stored record. Timestamps are kept as the instants their ISO 8601
      strings denote. */
  datatype Item = Item(
    id: string,
    title: string,
    description: string,
    status: string,
    priority: string,
    createdAt: int,
    updatedAt: int,
    createdBy: Option<string>)

  /** `toDynamoItem`. */
  function ToItem(t: Ticket): (item: Item)
    ensures item.id == t.id && item.title == t.title && item.description == t.description
    ensures item.status == StatusPolicy.Name(t.status) && item.priority == Priority.Name(t.priority)
    ensures item.createdAt == t.createdAt && item.updatedAt == t.updatedAt && item.createdBy == t.createdBy
  {
    Item(t.id, t.title, t.description, StatusPolicy.Name(t.status), Priority.Name(t.priority),
         t.createdAt, t.updatedAt, t.createdBy)
  }

  /** `toDomainEntity`: the stored strings cast to status and priority and
      the whole record passed through the validating constructor, so a
      record with a blank or oversized field fails to load. */
  function ToEntity(item: Item): (r: Result<Ticket, Error>)
    ensures r.Ok? <==> ValidFields(item.id, item.title, item.description)
    ensures r.Err? ==> r.error.PlainError?
    ensures r.Ok? ==> ToItem(r.value) == item && Valid(r.value)
    ensures r.Ok? ==> r.value.status == StatusPolicy.FromName(item.status)
  {
    New(item.id, item.title, item.description, StatusPolicy.FromName(item.status),
        Priority.FromName(item.priority), item.createdAt, item.updatedAt, item.createdBy)
  }

  /** Storing a valid ticket and loading it back gives the same ticket. */
  lemma LoadAfterStore(t: Ticket)
    requires Valid(t)
    ensures ToEntity(ToItem(t)) == Ok(t)
  {
    StatusPolicy.FromNameOfName(t.status);
    Priority.FromNameOfName(t.priority);
  }

  /** `xs.map(f)` for an `f` that may throw: the first failure in order,
      or every value. */
  function Collect<T, E>(rs: seq<Result<T, E>>): (r: Result<seq<T>, E>)
    ensures r.Ok? ==> |r.value| == |rs| && forall i :: 0 <= i < |rs| ==> rs[i] == Ok(r.value[i])
  {
    if rs == [] then Ok([])
    else
      match rs[0]
      case Err(e) => Err(e)
      case Ok(t) =>
        match Collect(rs[1..])
        case Err(e) => Err(e)
        case Ok(ts) => Ok([t] + ts)
  }

  /** The mapping fails exactly when some element is a failure, and then
      with the first one. */
  lemma {:induction false} CollectFailsAtFirstFailure<T, E>(rs: seq<Result<T, E>>)
    ensures Collect(rs).Ok? <==> forall i :: 0 <= i < |rs| ==> rs[i].Ok?
    ensures Collect(rs).Err? ==>
      exists i :: 0 <= i < |rs| && rs[i] == Err(Collect(rs).error) && forall j :: 0 <= j < i ==> rs[j].Ok?
  {
    if rs != [] {
      CollectFailsAtFirstFailure(rs[1..]);
      var rest := Collect(rs[1..]);
      if rs[0].Ok? && rest.Err? {
        var i :| 0 <= i < |rs[1..]| && rs[1..][i] == Err(rest.error) && forall j :: 0 <= j < i ==> rs[1..][j].Ok?;
        assert rs[i + 1] == Err(rest.error);
        assert forall j :: 0 <= j < i + 1 ==> rs[j].Ok? by {
          forall j | 0 <= j < i + 1 ensures rs[j].Ok? {
            if j > 0 { assert rs[j] == rs[1..][j - 1]; }
          }
        }
      }
    }
  }

  /** Mapping a sequence with one more element at the end. */
  lemma {:induction false} CollectSnoc<T, E>(rs: seq<Result<T, E>>, x: Result<T, E>)
    ensures Collect(rs + [x]) ==
      match Collect(rs)
      case Err(e) => Err(e)
      case Ok(ts) => (match x case Err(e) => Err(e) case Ok(t) => Ok(ts + [t]))
  {
    if rs == [] {
      assert rs + [x] == [x];
      assert [x][1..] == [];
      if x.Ok? { assert [x.value] + [] == [] + [x.value]; }
    } else {
      assert (rs + [x])[0] == rs[0];
      assert (rs + [x])[1..] == rs[1..] + [x];
      CollectSnoc(rs[1..], x);
      if rs[0].Ok? && Collect(rs[1..]).Ok? && x.Ok? {
        var h, ts := rs[0].value, Collect(rs[1..]).value;
        assert [h] + (ts + [x.value]) == ([h] + ts) + [x.value];
      }
    }
  }

  /** Mapping one more element of `rs`. */
  lemma CollectPrefixStep<T, E>(rs: seq<Result<T, E>>, i: nat)
    requires i < |rs|
    ensures Collect(rs[..i + 1]) ==
      match Collect(rs[..i])
      case Err(e) => Err(e)
      case Ok(ts) => (match rs[i] case Err(e) => Err(e) case Ok(t) => Ok(ts + [t]))
  {
    CollectSnoc(rs[..i], rs[i]);
    assert rs[..i + 1] == rs[..i] + [rs[i]];
  }

  /** A failure in a prefix is the failure of the whole mapping. */
  lemma {:induction false} CollectPrefixFailure<T, E>(rs: seq<Result<T, E>>, n: nat)
    requires n <= |rs| && Collect(rs[..n]).Err?
    ensures Collect(rs) == Collect(rs[..n])
    decreases |rs| - n
  {
    if n == |rs| {
      assert rs[..n] == rs;
    } else {
      CollectPrefixStep(rs, n);
      CollectPrefixFailure(rs, n + 1);
    }
  }

  /** The loop behind `.map` with a callback that may throw, run over the
      callback's results: stops at the first failure. */
  method CollectEach<T, E>(rs: seq<Result<T, E>>) returns (r: Result<seq<T>, E>)
    ensures r == Collect(rs)
  {
    var values: seq<T> := [];
    for i := 0 to |rs|
      invariant Collect(rs[..i]) == Ok(values)
    {
      CollectPrefixStep(rs, i);
      if rs[i].Err? {
        CollectPrefixFailure(rs, i + 1);
        return Err(rs[i].error);
      }
      values := values + [rs[i].value];
    }
    assert rs[..|rs|] == rs;
    r := Ok(values);
  }

  /** The result of loading each record at `keys`, in order. */
  function Loaded(items: map<string, Item>, keys: seq<string>): (rs: seq<Result<Ticket, Error>>)
    requires forall k :: k in keys ==> k in items
    ensures |rs| == |keys| && forall i :: 0 <= i < |keys| ==> rs[i] == ToEntity(items[keys[i]])
  {
    seq(|keys|, i requires 0 <= i < |keys| => ToEntity(items[keys[i]]))
  }

  /** Loading the records at `keys` in order, as `items.map(toDomainEntity)`
      does: the first record that fails validation fails the whole read. */
  function Load(items: map<string, Item>, keys: seq<string>): (r: Result<seq<Ticket>, Error>)
    requires forall k :: k in keys ==> k in items
    ensures r.Ok? ==> |r.value| == |keys|
    ensures r.Ok? ==> forall i :: 0 <= i < |keys| ==> ToEntity(items[keys[i]]) == Ok(r.value[i])
  {
    Collect(Loaded(items, keys))
  }

  /** The keys of `keys` whose record has status `s`, in the same order:
      what a query on the status index returns. */
  function WithStatus(items: map<string, Item>, keys: seq<string>, s: TicketStatus): (r: seq<string>)
    requires forall k :: k in keys ==> k in items
    ensures forall k :: k in r <==> k in keys && items[k].status == StatusPolicy.Name(s)
    ensures |r| <= |keys|
    ensures (forall i, j :: 0 <= i < j < |keys| ==> keys[i] != keys[j]) ==>
            (forall i, j :: 0 <= i < j < |r| ==> r[i] != r[j])
  {
    if keys == [] then []
    else
      var last := keys[|keys| - 1];
      var front := WithStatus(items, keys[..|keys| - 1], s);
      assert forall k :: k in keys <==> k in keys[..|keys| - 1] || k == last;
      if items[last].status == StatusPolicy.Name(s) then front + [last] else front
  }

  /** Every ticket a status query loads has that status and is the load of
      a stored record. */
  lemma QueryGivesOnlyThatStatus(items: map<string, Item>, keys: seq<string>, s: TicketStatus)
    requires forall k :: k in keys ==> k in items
    requires Load(items, WithStatus(items, keys, s)).Ok?
    ensures forall t :: t in Load(items, WithStatus(items, keys, s)).value ==>
              t.status == s && ToItem(t) in items.Values
  {
    var sel := WithStatus(items, keys, s);
    var ts := Load(items, sel).value;
    StatusPolicy.FromNameOfName(s);
    forall t | t in ts
      ensures t.status == s && ToItem(t) in items.Values
    {
      var i :| 0 <= i < |ts| && ts[i] == t;
      var k := sel[i];
      assert k in sel && k in items;
      assert ToEntity(items[k]) == Ok(t);
      assert items[k].status == StatusPolicy.Name(s);
      assert items[k] in items.Values;
    }
  }

  /** A status query over a listing of the whole table misses no stored
      record with that status. */
  lemma QueryMissesNoRecord(items: map<string, Item>, keys: seq<string>, s: TicketStatus)
    requires forall k :: k in keys <==> k in items
    requires Load(items, WithStatus(items, keys, s)).Ok?
    ensures forall k :: k in items && items[k].status == StatusPolicy.Name(s) ==>
              exists t :: t in Load(items, WithStatus(items, keys, s)).value && ToItem(t) == items[k]
  {
    var sel := WithStatus(items, keys, s);
    forall k | k in items && items[k].status == StatusPolicy.Name(s)
      ensures exists t :: t in Load(items, sel).value && ToItem(t) == items[k]
    {
      LoadKeepsRecord(items, sel, k);
    }
  }

  /** A successful load of `keys` holds the load of each record they name. */
  lemma LoadKeepsRecord(items: map<string, Item>, keys: seq<string>, k: string)
    requires forall k :: k in keys ==> k in items
    requires k in keys && Load(items, keys).Ok?
    ensures exists t :: t in Load(items, keys).value && ToItem(t) == items[k]
  {
    var ts := Load(items, keys).value;
    var i :| 0 <= i < |keys| && keys[i] == k;
    assert ToEntity(items[keys[i]]) == Ok(ts[i]);
  }

  /** A scan over a listing of the whole table loads every stored record,
      one ticket per record. */
  lemma ScanGivesEveryRecord(items: map<string, Item>, keys: seq<string>)
    requires forall k :: k in keys <==> k in items
    requires forall i, j :: 0 <= i < j < |keys| ==> keys[i] != keys[j]
    requires Load(items, keys).Ok?
    ensures |Load(items, keys).value| == |items|
    ensures forall k :: k in items ==> exists t :: t in Load(items, keys).value && ToItem(t) == items[k]
  {
    ListingLength(items, keys);
    forall k | k in items
      ensures exists t :: t in Load(items, keys).value && ToItem(t) == items[k]
    {
      LoadKeepsRecord(items, keys, k);
    }
  }

  /** A duplicate-free listing of a map's keys is exactly as long as the map. */
  lemma {:induction false} ListingLength(items: map<string, Item>, keys: seq<string>)
    requires forall k :: k in keys <==> k in items
    requires forall i, j :: 0 <= i < j < |keys| ==> keys[i] != keys[j]
    ensures |keys| == |items|
  {
    if keys == [] {
      assert items.Keys == {};
    } else {
      var k := keys[0];
      var rest := items - {k};
      forall x
        ensures x in keys[1..] <==> x in rest
      {
        if x in keys[1..] {
          var j :| 0 <= j < |keys[1..]| && keys[1..][j] == x;
          assert keys[j + 1] == x;
        }
      }
      ListingLength(rest, keys[1..]);
      assert items.Keys == rest.Keys + {k};
    }
  }

  /** The table: `items` maps each key to the record stored under it, and
      `order` is the order in which a scan returns them (the store promises
      no particular order; the model fixes one). */
  class Table {
    var items: map<string, Item>
    var order: seq<string>

    ghost predicate Valid()
      reads this
    {
      (forall k :: k in items ==> items[k].id == k)
      && (forall k :: k in order <==> k in items)
      && (forall i, j :: 0 <= i < j < |order| ==> order[i] != order[j])
    }

    /** A table as found, possibly holding records the entity would
        refuse. */
    constructor (initial: map<string, Item>, scanOrder: seq<string>)
      requires forall k :: k in initial ==> initial[k].id == k
      requires forall k :: k in scanOrder <==> k in initial
      requires forall i, j :: 0 <= i < j < |scanOrder| ==> scanOrder[i] != scanOrder[j]
      ensures Valid() && items == initial && order == scanOrder
    {
      items := initial;
      order := scanOrder;
    }

    /** `create`: a put conditioned on `attribute_not_exists(id)`. An
        existing id fails the condition and leaves the table as it was;
        a fresh id adds exactly that record, and the given ticket is
        returned as it was passed in. */
    method Create(t: Ticket) returns (r: Result<Ticket, Error>)
      requires Valid()
      modifies this
      ensures Valid()
      ensures t.id in old(items) ==> r == Err(ConditionalCheckFailed) && items == old(items) && order == old(order)
      ensures t.id !in old(items) ==> r == Ok(t) && items == old(items)[t.id := ToItem(t)]
                                      && order == old(order) + [t.id]
    {
      if t.id in items {
        return Err(ConditionalCheckFailed);
      }
      items := items[t.id := ToItem(t)];
      order := order + [t.id];
      r := Ok(t);
    }

    /** `findById`: `None` (the source's `null`) for an absent id, otherwise
        the stored record loaded through the entity constructor. */
    method FindById(id: string) returns (r: Result<Option<Ticket>, Error>)
      requires Valid()
      ensures id !in items ==> r == Ok(None)
      ensures id in items && ToEntity(items[id]).Ok? ==> r == Ok(Some(ToEntity(items[id]).value))
      ensures id in items && ToEntity(items[id]).Err? ==> r == Err(ToEntity(items[id]).error)
      ensures r.Ok? && r.value.Some? ==> r.value.value.id == id && ToItem(r.value.value) == items[id]
    {
      if id !in items {
        return Ok(None);
      }
      var loaded := ToEntity(items[id]);
      match loaded {
        case Err(e) => r := Err(e);
        case Ok(t) => r := Ok(Some(t));
      }
    }

    /** `findAll`: every record in scan order, each loaded through the
        entity constructor. */
    method FindAll() returns (r: Result<seq<Ticket>, Error>)
      requires Valid()
      ensures r == Load(items, order)
    {
      r := CollectEach(Loaded(items, order));
    }

    /** `findByStatus`: the records whose stored status is `s`, in scan
        order. Only those records are loaded, so an invalid record with
        another status does not fail the query. */
    method FindByStatus(s: TicketStatus) returns (r: Result<seq<Ticket>, Error>)
      requires Valid()
      ensures r == Load(items, WithStatus(items, order, s))
    {
      var selected: seq<string> := [];
      for i := 0 to |order|
        invariant selected == WithStatus(items, order[..i], s)
      {
        assert order[..i + 1][..i] == order[..i];
        if items[order[i]].status == StatusPolicy.Name(s) {
          selected := selected + [order[i]];
        }
      }
      assert order[..|order|] == order;
      r := CollectEach(Loaded(items, selected));
    }

    /** `updateStatus`: sets the record's `status` and `updatedAt` and
        nothing else, touches no other record, and returns the updated
        record loaded through the entity constructor. The id must be
        present: the only caller looks it up first. */
    method UpdateStatus(id: string, s: TicketStatus, now: int) returns (r: Result<Ticket, Error>)
      requires Valid() && id in items
      modifies this
      ensures Valid()
      ensures items == old(items)[id := old(items)[id].(status := StatusPolicy.Name(s), updatedAt := now)]
      ensures order == old(order)
      ensures r == ToEntity(items[id])
    {
      items := items[id := items[id].(status := StatusPolicy.Name(s), updatedAt := now)];
      r := ToEntity(items[id]);
    }
  }
}
