/** The two bounded token queues of the probe workers. */
module ProbeQueue {
  import opened Types

  /** A queue over a growing slice with a head index; popped items stay in the
      slice until enough of it is dead to be worth copying the rest. */
  class Buffer<T> {
    var items: seq<T>
    var head: nat

    ghost predicate Valid()
      reads this
    {
      head <= |items| && (items != [] ==> head < |items|)
    }

    ghost function Contents(): seq<T>
      reads this
      requires Valid()
    {
      items[head..]
    }

    constructor ()
      ensures Valid() && Contents() == []
    {
      items, head := [], 0;
    }

    method Len() returns (n: nat)
      requires Valid()
      ensures n == |Contents()|
    {
      n := |items| - head;
    }

    method Push(task: T)
      requires Valid()
      modifies this
      ensures Valid() && Contents() == old(Contents()) + [task]
    {
      items := items + [task];
    }

    method Pop() returns (task: T)
      requires Valid() && Contents() != []
      modifies this
      ensures Valid() && [task] + Contents() == old(Contents())
    {
      task := items[head];
      head := head + 1;
      if head >= |items| {
        items, head := [], 0;
        return;
      }
      if head > 64 && head * 2 >= |items| {
        items, head := items[head..], 0;
      }
    }

    method Clear()
      modifies this
      ensures Valid() && Contents() == []
    {
      items, head := [], 0;
    }
  }

  class TaskQueue<T> {
    const high: Buffer<T>
    const normal: Buffer<T>
    const highCap: nat
    const normalCap: nat
    var stopped: bool

    ghost predicate Valid()
      reads this, high, normal
    {
      && high != normal && high.Valid() && normal.Valid()
      && |high.Contents()| <= highCap && |normal.Contents()| <= normalCap
      && (stopped ==> high.Contents() == [] && normal.Contents() == [])
    }

    constructor (highCap: int, normalCap: int)
      ensures Valid() && fresh(high) && fresh(normal) && !stopped
      ensures high.Contents() == [] && normal.Contents() == []
      ensures this.highCap == (if highCap <= 0 then 1024 else highCap)
      ensures this.normalCap == (if normalCap <= 0 then 1024 else normalCap)
    {
      high := new Buffer();
      normal := new Buffer();
      this.highCap := if highCap <= 0 then 1024 else highCap;
      this.normalCap := if normalCap <= 0 then 1024 else normalCap;
      stopped := false;
    }

    /** Refused exactly when stopped or when the queue of that priority is full. */
    method Enqueue(task: T, priority: Priority) returns (ok: bool)
      requires Valid()
      modifies high, normal
      ensures Valid()
      ensures ok == (!stopped && (if priority.High? then |old(high.Contents())| < highCap else |old(normal.Contents())| < normalCap))
      ensures high.Contents() == old(high.Contents()) + (if ok && priority.High? then [task] else [])
      ensures normal.Contents() == old(normal.Contents()) + (if ok && priority.Normal? then [task] else [])
    {
      if stopped {
        return false;
      }
      match priority {
        case High =>
          var n := high.Len();
          if n >= highCap {
            return false;
          }
          high.Push(task);
        case Normal =>
          var n := normal.Len();
          if n >= normalCap {
            return false;
          }
          normal.Push(task);
      }
      return true;
    }

    /** One pass of the dequeue loop: None means stopped or nothing to take yet.
        The tie-break only matters when both queues hold something. */
    method TryDequeue(chooseNormal: bool) returns (task: Option<T>)
      requires Valid()
      modifies high, normal
      ensures Valid()
      ensures task.None? <==> old(high.Contents()) == [] && old(normal.Contents()) == []
      ensures task.Some? ==>
                if old(normal.Contents()) != [] && (chooseNormal || old(high.Contents()) == [])
                then [task.value] + normal.Contents() == old(normal.Contents()) && high.Contents() == old(high.Contents())
                else [task.value] + high.Contents() == old(high.Contents()) && normal.Contents() == old(normal.Contents())
    {
      if stopped {
        return None;
      }
      var highLen := high.Len();
      var normalLen := normal.Len();
      if highLen > 0 && normalLen > 0 {
        if chooseNormal {
          var t := normal.Pop();
          return Some(t);
        }
        var t := high.Pop();
        return Some(t);
      } else if highLen > 0 {
        var t := high.Pop();
        return Some(t);
      } else if normalLen > 0 {
        var t := normal.Pop();
        return Some(t);
      }
      return None;
    }

    method StopDropPending()
      requires Valid()
      modifies this, high, normal
      ensures Valid() && stopped && high.Contents() == [] && normal.Contents() == []
    {
      stopped := true;
      high.Clear();
      normal.Clear();
    }
  }
}
