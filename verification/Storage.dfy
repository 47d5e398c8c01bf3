/** dm_nvs.c as seen from its callers: the bounded operation queue, the flash and the completions. */
module Storage {
  import opened Config
  import opened StoreSpec

  datatype Completion =
    | DeleteDone(slot: int, gen: nat, ok: bool)
    | SaveFailedOn(slot: int)

  /** Flash as its readers see it: the events saved under each slot's key. */
  type Flash = map<int, seq<Event>>

  /** Everything behind the sink: waiting operations, stored values, outcomes not yet delivered. */
  datatype Backend = Backend(queue: seq<Op>, flash: Flash, completions: seq<Completion>)

  function Submit(cs: seq<Completion>, c: Completion): seq<Completion> {
    if |cs| < QUEUE_LEN then cs + [c] else cs
  }

  /** One iteration of the storage worker; `ok` is the verdict of the settings call. */
  function Work(b: Backend, ok: bool): Backend {
    if b.queue == [] then b
    else
      var rest := b.(queue := b.queue[1..]);
      match b.queue[0]
      case SaveKnobs(_, _, _) => rest
      case Save(i, events, _) =>
        if ok then rest.(flash := b.flash[i := events])
        else rest.(completions := Submit(b.completions, SaveFailedOn(i)))
      case Delete(i, gen) =>
        rest.(flash := if ok then b.flash - {i} else b.flash,
              completions := Submit(b.completions, DeleteDone(i, gen, ok)))
  }

  /** The file-scoped storage instance of dm_nvs.c. */
  class NvsBackend {
    var queue: seq<Op>
    var flash: Flash
    var completions: seq<Completion>

    constructor ()
      ensures Value() == Backend([], map[], [])
    {
      queue, flash, completions := [], map[], [];
    }

    function Value(): Backend
      reads this
    {
      Backend(queue, flash, completions)
    }

    method Enqueue(op: Op, refusal: DmResult) returns (rc: DmResult)
      modifies this`queue
      ensures rc == if |old(queue)| < QUEUE_LEN then Ok else refusal
      ensures queue == if |old(queue)| < QUEUE_LEN then old(queue) + [op] else old(queue)
    {
      if |queue| >= QUEUE_LEN {
        return refusal;
      }
      queue := queue + [op];
      rc := Ok;
    }

    method SinkSave(slot: int, events: seq<Event>, gen: nat) returns (rc: DmResult)
      modifies this`queue
      ensures
        rc
        == if |events| > MAX_EVENTS_NVS then RejectedTooLarge
           else if |old(queue)| < QUEUE_LEN then Ok else SaveQueueFull
      ensures queue == if rc == Ok then old(queue) + [Save(slot, events, gen)] else old(queue)
    {
      if |events| > MAX_EVENTS_NVS {
        return RejectedTooLarge;
      }
      rc := Enqueue(Save(slot, events, gen), SaveQueueFull);
    }

    method SinkDelete(slot: int, gen: nat) returns (rc: DmResult)
      modifies this`queue
      ensures rc == if |old(queue)| < QUEUE_LEN then Ok else DeleteQueueFull
      ensures queue == if rc == Ok then old(queue) + [Delete(slot, gen)] else old(queue)
    {
      rc := Enqueue(Delete(slot, gen), DeleteQueueFull);
    }

    /** A knob save that does not fit is dropped without telling anyone. */
    method SaveKnobValues(level: U8, style: U8, erase: U8)
      modifies this`queue
      ensures queue == if |old(queue)| < QUEUE_LEN then old(queue) + [SaveKnobs(level, style, erase)] else old(queue)
    {
      var _ := Enqueue(SaveKnobs(level, style, erase), Ok);
    }

    method SubmitCompletion(c: Completion)
      modifies this`completions
      ensures completions == Submit(old(completions), c)
    {
      if |completions| < QUEUE_LEN {
        completions := completions + [c];
      }
    }

    /** The body of the worker's loop for one operation. */
    method WorkOne(ok: bool)
      requires queue != []
      modifies this
      ensures Value() == Work(old(Value()), ok)
    {
      var op := queue[0];
      queue := queue[1..];
      match op {
        case SaveKnobs(_, _, _) =>
        case Save(i, events, _) =>
          if ok {
            flash := flash[i := events];
          } else {
            SubmitCompletion(SaveFailedOn(i));
          }
        case Delete(i, gen) =>
          if ok {
            flash := flash - {i};
          }
          SubmitCompletion(DeleteDone(i, gen, ok));
      }
    }
  }
}
