/** The client registry: a table of slots, and in every client the index of its slot. */
module Registry {
  import opened ByteStrings

  const MAX_CLIENTS: nat := 128

  datatype Status = SUCCESS | FULL | SOCKET_FAILURE

  /** The registry's view of client_t. */
  class Client {
    var registryIdx: int
    var sockfd: int

    constructor (sockfd: int)
      ensures registryIdx == -1 && this.sockfd == sockfd
    {
      registryIdx := -1;
      this.sockfd := sockfd;
    }
  }

  /** The lowest free slot, or the length when there is none. */
  function FreeSlot<T>(slots: seq<Option<T>>): (i: nat)
    ensures i <= |slots|
    ensures i < |slots| ==> slots[i].None?
    ensures forall j :: 0 <= j < i ==> slots[j].Some?
  {
    if slots == [] || slots[0].None? then 0 else 1 + FreeSlot(slots[1..])
  }

  lemma FreeSlotIs<T>(slots: seq<Option<T>>, i: nat)
    requires i <= |slots| && (i < |slots| ==> slots[i].None?) && (forall j :: 0 <= j < i ==> slots[j].Some?)
    ensures FreeSlot(slots) == i
  {
  }

  /** The table after registry_add. */
  function Added<T>(slots: seq<Option<T>>, c: T): (r: seq<Option<T>>)
    ensures |r| == |slots|
  {
    var i := FreeSlot(slots);
    if i == |slots| then slots else slots[i := Some(c)]
  }

  /** The table after registry_remove. */
  function Removed<T(==)>(slots: seq<Option<T>>, c: T): (r: seq<Option<T>>)
    ensures |r| == |slots|
    ensures forall i :: 0 <= i < |slots| ==> r[i] == if slots[i] == Some(c) then None else slots[i]
  {
    seq(|slots|, i requires 0 <= i < |slots| => if slots[i] == Some(c) then None else slots[i])
  }

  /** The clients in the slots before i, in slot order. */
  ghost function Listed<T>(slots: seq<Option<T>>, i: nat): seq<T>
    requires i <= |slots|
  {
    if i == 0 then [] else Listed(slots, i - 1) + if slots[i - 1].None? then [] else [slots[i - 1].value]
  }

  class Table {
    const slots: array<Client?>

    /** Every registered client knows its slot. */
    ghost predicate Valid()
      reads this, slots, set i | 0 <= i < slots.Length :: slots[i]
    {
      && slots.Length == MAX_CLIENTS
      && forall i :: 0 <= i < slots.Length && slots[i] != null ==> slots[i].registryIdx == i
    }

    ghost function View(): (v: seq<Option<Client>>)
      reads slots
      ensures |v| == slots.Length
    {
      seq(slots.Length, i requires 0 <= i < slots.Length reads slots =>
            if slots[i] == null then None else Some(slots[i]))
    }

    /** A client outside of the table, as client_create makes it. */
    ghost predicate Outside(c: Client)
      reads slots
    {
      forall i :: 0 <= i < slots.Length ==> slots[i] != c
    }

    constructor ()
      ensures Valid() && fresh(slots) && forall i :: 0 <= i < slots.Length ==> slots[i] == null
    {
      slots := new Client?[MAX_CLIENTS](i => null);
    }

    /** registry_add: the lowest free slot, for a client with an open socket. */
    method Add(c: Client) returns (status: Status)
      requires Valid() && Outside(c)
      modifies slots, c`registryIdx
      ensures Valid()
      ensures status == if c.sockfd == -1 then SOCKET_FAILURE
                        else if FreeSlot(old(View())) == MAX_CLIENTS then FULL else SUCCESS
      ensures View() == if status == SUCCESS then Added(old(View()), c) else old(View())
      ensures status == SUCCESS ==> 0 <= c.registryIdx < slots.Length && slots[c.registryIdx] == c
      ensures status != SUCCESS ==> c.registryIdx == old(c.registryIdx)
    {
      if c.sockfd == -1 {
        return SOCKET_FAILURE;
      }
      status := FULL;
      for idx := 0 to slots.Length
        invariant status == FULL && c.registryIdx == old(c.registryIdx) && slots[..] == old(slots[..])
        invariant View() == old(View())
        invariant forall j :: 0 <= j < idx ==> slots[j] != null
      {
        if slots[idx] == null {
          FreeSlotIs(View(), idx);
          slots[idx] := c;
          c.registryIdx := idx;
          status := SUCCESS;
          return;
        }
      }
      FreeSlotIs(View(), slots.Length);
    }

    /** registry_remove: by the index that the client carries. */
    method Remove(c: Client) returns (status: Status)
      requires Valid() && (c.registryIdx == -1 || (0 <= c.registryIdx < slots.Length && slots[c.registryIdx] == c))
      modifies slots, c`registryIdx
      ensures Valid() && View() == Removed(old(View()), c) && Outside(c)
      ensures forall i :: 0 <= i < slots.Length ==> slots[i] == if old(slots[i]) == c then null else old(slots[i])
      ensures c.registryIdx == -1
      ensures status == if old(c.registryIdx) == -1 then SOCKET_FAILURE else SUCCESS
    {
      status := SOCKET_FAILURE;
      if c.registryIdx != -1 {
        slots[c.registryIdx] := null;
        c.registryIdx := -1;
        status := SUCCESS;
      }
    }

    /** The loop of registry_destroy: client_destroy takes each client out of its slot. */
    method Destroy() returns (destroyed: seq<Client>)
      requires Valid()
      modifies slots, set i | 0 <= i < slots.Length && slots[i] != null :: slots[i]`registryIdx
      ensures Valid() && forall i :: 0 <= i < slots.Length ==> slots[i] == null
      ensures destroyed == Listed(old(View()), MAX_CLIENTS)
    {
      destroyed := [];
      for idx := 0 to slots.Length
        invariant Valid()
        invariant forall i :: 0 <= i < slots.Length ==> slots[i] == if i < idx then null else old(slots[i])
        invariant destroyed == Listed(old(View()), idx)
      {
        var c := slots[idx];
        if c != null {
          var status := Remove(c);
          destroyed := destroyed + [c];
        }
      }
    }
  }
}
