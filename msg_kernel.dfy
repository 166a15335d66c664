/**
 * The task-messaging kernel of main.c: the registry g_my_msg_info that maps
 * every module to the message queue it registered, best-effort sends that
 * never block, receives in FIFO order, and the main task's loop step that
 * releases the payload of a BLE data message.
 *
 * A registry slot holds a queue handle (an index into `queues`, one entry per
 * statically defined k_msgq) or nothing, so two modules may share a queue and
 * a later registration replaces an earlier one, as pointers do in C.
 */
module MsgKernel {
  import opened Common

  /** k_msgq_put with K_NO_WAIT: the message joins the tail when there is room. */
  function Put(q: seq<Msg>, m: Msg): seq<Msg>
  {
    if |q| < MSGQ_MAX_MSGS then q + [m] else q
  }

  /** The queue after a series of non-blocking puts, in the order given. */
  function PutAll(q: seq<Msg>, ms: seq<Msg>): seq<Msg>
    decreases |ms|
  {
    if ms == [] then q else PutAll(Put(q, ms[0]), ms[1..])
  }

  /**
   * A series of sends keeps, in send order, exactly as many messages as the
   * queue has room for, and drops the rest without disturbing what is there.
   */
  lemma {:induction false} PutAllKeepsPrefix(q: seq<Msg>, ms: seq<Msg>)
    requires |q| <= MSGQ_MAX_MSGS
    ensures PutAll(q, ms) == q + ms[..Min(|ms|, MSGQ_MAX_MSGS - |q|)]
    ensures |PutAll(q, ms)| <= MSGQ_MAX_MSGS
    decreases |ms|
  {
    if ms != [] {
      PutAllKeepsPrefix(Put(q, ms[0]), ms[1..]);
      if |q| < MSGQ_MAX_MSGS {
        assert q + [ms[0]] + ms[1..][..Min(|ms| - 1, MSGQ_MAX_MSGS - |q| - 1)]
            == q + ms[..Min(|ms|, MSGQ_MAX_MSGS - |q|)];
      }
    }
  }

  /**
   * Eleven sends to an empty queue of capacity 10 with no receive in between:
   * the eleventh is dropped and the first ten stay retrievable in order.
   */
  lemma EleventhSendIsDropped(ms: seq<Msg>)
    requires |ms| == 11
    ensures PutAll([], ms) == ms[..10]
  {
    PutAllKeepsPrefix([], ms);
  }

  /** What my_recv_msg reports, as seen by the calling task. */
  datatype WaitOption = NoWait | Bounded | Forever
  datatype RecvResult = Received(msg: Msg) | Failed(code: int) | Blocked

  class Kernel {
    /** g_my_msg_info: the queue handle registered by each module, if any. */
    const handles: array<Option<nat>>
    /** The contents of every statically defined message queue. */
    const queues: array<seq<Msg>>

    ghost predicate Valid()
      reads this, handles, queues
    {
      && handles.Length == MAX_MY_MOD_TYPE
      && (forall m :: 0 <= m < handles.Length && handles[m].Some? ==> handles[m].value < queues.Length)
      && (forall q :: 0 <= q < queues.Length ==> |queues[q]| <= MSGQ_MAX_MSGS)
    }

    constructor (queueCount: nat)
      ensures Valid() && fresh(handles) && fresh(queues)
      ensures queues.Length == queueCount
      ensures forall m :: 0 <= m < handles.Length ==> handles[m].None?
      ensures forall q :: 0 <= q < queues.Length ==> queues[q] == []
    {
      handles := new Option<nat>[MAX_MY_MOD_TYPE](_ => None);
      queues := new seq<Msg>[queueCount](_ => []);
    }

    /** my_init_msg_handler: a NULL queue is refused, otherwise the slot is overwritten. */
    method InitMsgHandler(mod: ModuleId, msgq: Option<nat>)
      requires Valid()
      requires msgq.Some? ==> msgq.value < queues.Length
      modifies handles
      ensures Valid()
      ensures msgq.None? ==> handles[..] == old(handles[..])
      ensures msgq.Some? ==> handles[..] == old(handles[..])[mod := msgq]
    {
      if msgq.Some? {
        handles[mod] := msgq;
      }
    }

    /** k_msgq_put(q, m, K_NO_WAIT): 0 when queued, -ENOMSG when the queue is full. */
    method MsgqPut(q: nat, m: Msg) returns (rc: int)
      requires Valid() && q < queues.Length
      modifies queues
      ensures Valid()
      ensures queues[..] == old(queues[..])[q := Put(old(queues[q]), m)]
      ensures rc == (if |old(queues[q])| < MSGQ_MAX_MSGS then 0 else -ENOMSG)
    {
      if |queues[q]| < MSGQ_MAX_MSGS {
        queues[q] := queues[q] + [m];
        rc := 0;
      } else {
        rc := -ENOMSG;
      }
    }

    /**
     * my_send_msg: the message {msg, NULL, 0} joins the tail of the queue the
     * destination registered; an unregistered destination or a full queue
     * drops it, and the caller learns nothing either way.
     */
    method SendMsg(src: ModuleId, dest: ModuleId, msg: uint32)
      requires Valid()
      modifies queues
      ensures Valid()
      ensures handles[dest].None? ==> queues[..] == old(queues[..])
      ensures handles[dest].Some? ==>
        var q := handles[dest].value;
        queues[..] == old(queues[..])[q := Put(old(queues[q]), Msg(msg, None, 0))]
    {
      var sendMsg := Msg(msg, None, 0);
      var destHdl := handles[dest];
      if destHdl.None? {
        return;
      }
      var _ := MsgqPut(destHdl.value, sendMsg);
    }

    /**
     * my_send_msg_data: as SendMsg, for a caller-built message that may carry a
     * payload. A dropped message's payload stays with no owner.
     */
    method SendMsgData(src: ModuleId, dest: ModuleId, msg: Msg)
      requires Valid()
      modifies queues
      ensures Valid()
      ensures handles[dest].None? ==> queues[..] == old(queues[..])
      ensures handles[dest].Some? ==>
        var q := handles[dest].value;
        queues[..] == old(queues[..])[q := Put(old(queues[q]), msg)]
    {
      var destHdl := handles[dest];
      if destHdl.None? {
        return;
      }
      var _ := MsgqPut(destHdl.value, msg);
    }

    /**
     * my_recv_msg: the oldest message is returned and removed; on an empty
     * queue K_NO_WAIT fails with -ENOMSG, a bounded wait times out with
     * -EAGAIN and K_FOREVER keeps the caller waiting.
     */
    method RecvMsg(q: nat, wait: WaitOption) returns (r: RecvResult)
      requires Valid() && q < queues.Length
      modifies queues
      ensures Valid()
      ensures old(queues[q]) != [] ==>
        r == Received(old(queues[q])[0]) && queues[..] == old(queues[..])[q := old(queues[q])[1..]]
      ensures old(queues[q]) == [] ==> queues[..] == old(queues[..])
      ensures old(queues[q]) == [] ==>
        r == (match wait
              case NoWait => Failed(-ENOMSG)
              case Bounded => Failed(-EAGAIN)
              case Forever => Blocked)
    {
      if queues[q] != [] {
        r := Received(queues[q][0]);
        queues[q] := queues[q][1..];
      } else {
        match wait
        case NoWait => r := Failed(-ENOMSG);
        case Bounded => r := Failed(-EAGAIN);
        case Forever => r := Blocked;
      }
    }

    /**
     * One iteration of a task loop that has no message handling yet
     * (my_shell_task, my_ble_task, my_nfc_task, my_ctrl_task,
     * my_gsensor_task): wait for the next message on the task's queue and
     * discard it, whatever its id.
     */
    method IdleTaskStep(q: nat) returns (r: RecvResult)
      requires Valid() && q < queues.Length
      modifies queues
      ensures Valid()
      ensures old(queues[q]) == [] ==> r == Blocked && queues[..] == old(queues[..])
      ensures old(queues[q]) != [] ==>
        r == Received(old(queues[q])[0]) && queues[..] == old(queues[..])[q := old(queues[q])[1..]]
    {
      r := RecvMsg(q, Forever);
    }

    /**
     * One iteration of main()'s loop: wait for a message on the main queue and
     * release the payload of a BLE data message that carries data.
     */
    method MainLoopStep(mainQ: nat) returns (r: RecvResult, freed: Option<BufId>)
      requires Valid() && mainQ < queues.Length
      modifies queues
      ensures Valid()
      ensures old(queues[mainQ]) == [] ==> r == Blocked && freed == None && queues[..] == old(queues[..])
      ensures old(queues[mainQ]) != [] ==>
        var m := old(queues[mainQ])[0];
        && r == Received(m)
        && queues[..] == old(queues[..])[mainQ := old(queues[mainQ])[1..]]
        && freed == (if m.msgId == MY_MSG_BLE_DATA_EVENT && m.pData.Some? && m.dataLen > 0
                     then m.pData else None)
    {
      r := RecvMsg(mainQ, Forever);
      freed := None;
      if r.Received? {
        var msg := r.msg;
        if msg.msgId == MY_MSG_BLE_DATA_EVENT && msg.pData.Some? && msg.dataLen > 0 {
          freed := msg.pData;
        }
      }
    }
  }
}
