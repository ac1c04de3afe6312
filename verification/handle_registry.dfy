/** The registry behind every FFI handle: ids counted up, values kept by id. */
module HandleRegistries {
  import opened Prelude

  class HandleRegistry<T> {
    var handles: map<nat, T>
    var next: nat

    constructor ()
      ensures handles == map[] && next == 1
    {
      handles, next := map[], 1;
    }

    /** Takes an id without inserting anything. */
    method NextId() returns (id: nat)
      modifies this`next
      ensures id == old(next) && next == id + 1
    {
      id := next;
      next := next + 1;
    }

    method Insert(value: T) returns (id: nat)
      modifies this
      ensures id == old(next) && next == id + 1 && handles == old(handles)[id := value]
    {
      id := next;
      next := next + 1;
      handles := handles[id := value];
    }

    method InsertWithId(id: nat, value: T)
      modifies this`handles
      ensures handles == old(handles)[id := value]
    {
      handles := handles[id := value];
    }

    method Get(id: nat) returns (value: Option<T>)
      ensures value == if id in handles then Some(handles[id]) else None
    {
      value := if id in handles then Some(handles[id]) else None;
    }

    method Remove(id: nat) returns (value: Option<T>)
      modifies this`handles
      ensures value == if id in old(handles) then Some(old(handles)[id]) else None
      ensures handles == old(handles) - {id}
    {
      value := if id in handles then Some(handles[id]) else None;
      handles := handles - {id};
    }
  }
}
