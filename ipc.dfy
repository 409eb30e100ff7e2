/**
 * The Wi-Fi IPC service (`wifi_ipc_service.c`): a context pairs a free queue
 * of message buffer addresses (an SPSC token queue) with a busy queue, an
 * IPC endpoint on which those addresses are sent to the other side. A
 * sender takes a free address, fills the buffer, sends the address on the
 * busy queue and then returns it from the free queue; the receiver hands
 * each address it receives to its callback and gives it back to the free
 * queue.
 *
 * The IPC service calls (`ipc_service_open_instance`,
 * `ipc_service_register_endpoint`, `ipc_service_send`) are parameters: their
 * outcomes. The message copies are not modelled.
 */
module Ipc {
  import opened Common
  import opened Spsc

  /** `WIFI_IPC_STATUS_T`. */
  datatype IpcStatus =
    | IpcOk | InitErr | FreeqUninitErr | FreeqEmpty | FreeqInvalid | FreeqFull
    | BusyqNotReady | BusyqFull | BusyqCriticalErr

  /** The result of `ipc_service_register_endpoint`: success, `-EALREADY`,
   *  or another error. */
  datatype RegisterResult = Registered | AlreadyRegistered | RegisterError

  /** The result of `ipc_service_send`: success, `-ENOMEM`, or another
   *  negative value. */
  datatype SendResult = Sent | SendNoMem | SendError

  /** `wifi_ipc_busyq_register`: INIT_ERR when the instance cannot be
   *  opened or the endpoint cannot be registered (an endpoint registered
   *  already is fine). */
  function RegisterStatus(openOk: bool, reg: RegisterResult): (s: IpcStatus)
    ensures s == IpcOk || s == InitErr
    ensures s == IpcOk <==> openOk && reg != RegisterError
  {
    if !openOk then InitErr
    else if reg == RegisterError then InitErr
    else IpcOk
  }

  const WIFI_IPC_CMD_SIZE: nat := 400
  const WIFI_IPC_CMD_NUM: nat := 4
  const WIFI_IPC_EVENT_SIZE: nat := 1000
  const WIFI_IPC_EVENT_NUM: nat := 7

  /** The first `n` buffer addresses of a pool of `size`-byte buffers from
   *  `base`, in 32 bits. */
  function BufferAddrs(base: u32, size: nat, n: nat): (r: seq<u32>)
    ensures |r| == n && (n > 0 ==> r[0] == base)
  {
    seq(n, i => (base + i * size) % 0x1_0000_0000)
  }

  /** Buffers `i < j < n` of `size` bytes lie in order within `n` of them. */
  lemma Spacing(size: nat, n: nat, i: nat, j: nat)
    requires i < j < n
    ensures i * size + size <= j * size <= n * size
  {
    var d := j - i;
    calc {
      j * size;
    ==  { assert j == i + d; }
      (i + d) * size;
    ==
      i * size + d * size;
    ==  { assert d == 1 + (d - 1); }
      i * size + size + (d - 1) * size;
    }
    calc {
      n * size;
    ==  { assert n == j + (n - j); }
      (j + (n - j)) * size;
    ==
      j * size + (n - j) * size;
    }
  }

  /** The buffers of a pool that fits below 2^32 do not overlap. */
  lemma BufferAddrsDisjoint(base: u32, size: nat, n: nat, i: nat, j: nat)
    requires i < j < n && base + n * size <= 0x1_0000_0000
    ensures BufferAddrs(base, size, n)[i] + size <= BufferAddrs(base, size, n)[j]
  {
    Spacing(size, n, i, j);
    var r := BufferAddrs(base, size, n);
    assert r[i] == base + i * size;
    assert r[j] == base + j * size;
  }

  /** Advancing a 32-bit buffer address by one buffer gives the next one. */
  lemma AddrStep(base: u32, size: nat, i: nat)
    ensures ((base + i * size) % 0x1_0000_0000 + size) % 0x1_0000_0000 == (base + (i + 1) * size) % 0x1_0000_0000
  {
    var x := base + i * size;
    assert (i + 1) * size == i * size + size;
    ModShift(x % 0x1_0000_0000 + size, x / 0x1_0000_0000);
  }

  /** Adding whole multiples of 2^32 does not change a 32-bit residue. */
  lemma ModShift(y: nat, k: nat)
    ensures (y + k * 0x1_0000_0000) % 0x1_0000_0000 == y % 0x1_0000_0000
  {
  }

  /** `WIFI_IPC_BUSYQ_T`: whether the endpoint is bound, with what has gone
   *  through it: the addresses sent on it and those handed to its receive
   *  callback. */
  class BusyQ {
    var ipcReady: bool
    var sent: seq<u32>
    var received: seq<u32>

    constructor ()
      ensures !ipcReady && sent == [] && received == []
    {
      ipcReady := false;
      sent := [];
      received := [];
    }

    /** `wifi_ipc_busyq_init`: the endpoint is not bound yet. */
    method Init()
      modifies this`ipcReady
      ensures !ipcReady
    {
      ipcReady := false;
    }
  }

  /** `WIFI_IPC_T`: the free queue (possibly absent), the context's own busy
   *  queue and, for a transmit context bound to a receive one, the busy
   *  queue it sends on. */
  class WifiIpc {
    var freeQ: Spsc32?
    const busyQ: BusyQ
    var linked: BusyQ?

    ghost predicate Valid()
      reads this, freeQ
    {
      freeQ != null ==> freeQ.Valid()
    }

    constructor ()
      ensures Valid() && freeQ == null && linked == null && fresh(busyQ)
    {
      freeQ := null;
      linked := null;
      busyQ := new BusyQ();
    }

    /** The free queue, as a frame. */
    function Free(): set<Spsc32>
      reads this
    {
      if freeQ != null then {freeQ} else {}
    }

    /** The busy queue `wifi_ipc_busyq_send` sends on. */
    function Target(): BusyQ
      reads this
    {
      if linked != null then linked else busyQ
    }

    /** `wifi_ipc_ep_bound`: the endpoint of this context is bound. */
    method EpBound()
      modifies busyQ`ipcReady
      ensures busyQ.ipcReady
    {
      busyQ.ipcReady := true;
    }

    /**
     * `wifi_ipc_bind_ipc_service_tx_rx`: the receive context's busy queue is
     * reset (not bound), the transmit context sends on it from now on, and
     * the registration's result is returned.
     */
    static method BindTxRx(tx: WifiIpc, rx: WifiIpc, openOk: bool, reg: RegisterResult) returns (status: IpcStatus)
      modifies tx`linked, rx.busyQ`ipcReady
      ensures tx.linked == rx.busyQ && tx.Target() == rx.busyQ && !rx.busyQ.ipcReady
      ensures status == RegisterStatus(openOk, reg)
    {
      rx.busyQ.Init();
      tx.linked := rx.busyQ;
      status := RegisterStatus(openOk, reg);
    }

    /** `wifi_ipc_freeq_get`: UNINIT_ERR without a free queue, FREEQ_EMPTY
     *  when it is empty, otherwise OK with its head, which stays queued. */
    method FreeqGet() returns (status: IpcStatus, data: Option<u32>)
      requires Valid()
      ensures freeQ == null ==> status == FreeqUninitErr && data.None?
      ensures freeQ != null ==> data == PopSpec(freeQ.items).1
      ensures freeQ != null ==> (status == IpcOk <==> data.Some?) && (data.None? ==> status == FreeqEmpty)
    {
      if freeQ == null {
        return FreeqUninitErr, None;
      }
      var empty := freeQ.IsEmpty();
      if empty {
        return FreeqEmpty, None;
      }
      data := freeQ.ReadHead();
      status := if data.Some? then IpcOk else FreeqEmpty;
    }

    /** `wifi_ipc_freeq_send`: OK exactly when the push gets in, FREEQ_FULL
     *  otherwise. */
    method FreeqSend(v: u32) returns (status: IpcStatus)
      requires Valid() && freeQ != null
      modifies freeQ`items
      ensures Valid()
      ensures var (q, ok) := PushSpec(old(freeQ.items), freeQ.capacity, v);
        freeQ.items == q && (status == IpcOk <==> ok) && (!ok ==> status == FreeqFull)
    {
      var ok := freeQ.Push(v);
      status := if ok then IpcOk else FreeqFull;
    }

    /**
     * `wifi_ipc_busyq_send`: on the linked busy queue when there is one, the
     * own one otherwise. Not bound: BUSYQ_NOTREADY; `-ENOMEM`: BUSYQ_FULL;
     * another failure: BUSYQ_CRITICAL_ERR; in these cases nothing changes.
     * Once sent, the free queue (if any) gives up its oldest address: OK if
     * it is `data`, FREEQ_INVALID if not, FREEQ_EMPTY if there was none.
     */
    method BusyqSend(data: u32, send: SendResult) returns (status: IpcStatus)
      requires Valid()
      modifies Target()`sent, Free()`items
      ensures Valid()
      ensures var t := Target();
        if !old(t.ipcReady) then status == BusyqNotReady && t.sent == old(t.sent) && unchanged(Free())
        else if send == SendNoMem then status == BusyqFull && t.sent == old(t.sent) && unchanged(Free())
        else if send == SendError then status == BusyqCriticalErr && t.sent == old(t.sent) && unchanged(Free())
        else
          && t.sent == old(t.sent) + [data]
          && (freeQ == null ==> status == IpcOk)
          && (freeQ != null ==>
                var (q, out) := PopSpec(old(freeQ.items));
                && freeQ.items == q
                && status == (if out.None? then FreeqEmpty else if out.value == data then IpcOk else FreeqInvalid))
    {
      var t := Target();
      if !t.ipcReady {
        return BusyqNotReady;
      }
      if send == SendNoMem {
        return BusyqFull;
      }
      if send == SendError {
        return BusyqCriticalErr;
      }
      t.sent := t.sent + [data];
      if freeQ != null {
        var out := freeQ.Pop();
        status := if out.None? then FreeqEmpty else if out.value == data then IpcOk else FreeqInvalid;
      } else {
        status := IpcOk;
      }
    }

    /**
     * `wifi_ipc_host_cmd_send_memcpy`: the free address is only read before
     * the send, so a failed send leaves it at the head of the free queue; a
     * successful one sends it and takes that same address off the queue,
     * which is OK.
     */
    method HostCmdSendMemcpy(send: SendResult) returns (status: IpcStatus)
      requires Valid()
      modifies Target()`sent, Free()`items
      ensures Valid()
      ensures freeQ == null ==> status == FreeqUninitErr && unchanged(Target())
      ensures freeQ != null && old(freeQ.items) == [] ==> status == FreeqEmpty && unchanged(Target()) && unchanged(Free())
      ensures freeQ != null && old(freeQ.items) != [] ==>
        var head := old(freeQ.items)[0];
        && (status != IpcOk ==> unchanged(Free()) && Target().sent == old(Target().sent))
        && (status == IpcOk <==> old(Target().ipcReady) && send == Sent)
        && (status == IpcOk ==> freeQ.items == old(freeQ.items)[1..] && Target().sent == old(Target().sent) + [head])
    {
      var got, addr := FreeqGet();
      if got != IpcOk {
        return got;
      }
      status := BusyqSend(addr.value, send);
    }

    /**
     * The initialisation shared by `wifi_ipc_rpu_event_init` and
     * `wifi_ipc_rpu_cmd_init`: a new free queue, into which the addresses of
     * `num` buffers of `size` bytes from `base` are pushed in order,
     * stopping at the first push that fails and returning its status.
     */
    method InitFreeQ(base: u32, capacity: nat, num: nat, size: nat) returns (status: IpcStatus)
      modifies this`freeQ
      ensures Valid() && freeQ != null && fresh(freeQ) && freeQ.capacity == capacity
      ensures status == IpcOk <==> num <= capacity
      ensures status != IpcOk ==> status == FreeqFull
      ensures freeQ.items == BufferAddrs(base, size, if num <= capacity then num else capacity)
    {
      var q := new Spsc32(capacity);
      freeQ := q;
      var addr := base;
      var i := 0;
      while i < num
        invariant freeQ == q && q.Valid() && fresh(q) && q.capacity == capacity
        invariant i <= num && i <= capacity
        invariant q.items == BufferAddrs(base, size, i)
        invariant addr == (base + i * size) % 0x1_0000_0000
        modifies q`items
      {
        status := FreeqSend(addr);
        if status != IpcOk {
          return;
        }
        assert q.items == BufferAddrs(base, size, i + 1);
        AddrStep(base, size, i);
        addr := (addr + size) % 0x1_0000_0000;
        i := i + 1;
      }
      status := IpcOk;
    }

    /** `wifi_ipc_rpu_event_init`: `WIFI_IPC_EVENT_NUM` event buffers of
     *  `WIFI_IPC_EVENT_SIZE` bytes. */
    method RpuEventInit(addrGdram: u32, capacity: nat) returns (status: IpcStatus)
      modifies this`freeQ
      ensures Valid() && freeQ != null && fresh(freeQ)
      ensures status == IpcOk <==> WIFI_IPC_EVENT_NUM <= capacity
      ensures freeQ.items == BufferAddrs(addrGdram, WIFI_IPC_EVENT_SIZE, if WIFI_IPC_EVENT_NUM <= capacity then WIFI_IPC_EVENT_NUM else capacity)
    {
      status := InitFreeQ(addrGdram, capacity, WIFI_IPC_EVENT_NUM, WIFI_IPC_EVENT_SIZE);
    }

    /** `wifi_ipc_rpu_cmd_init`: `WIFI_IPC_CMD_NUM` command buffers of
     *  `WIFI_IPC_CMD_SIZE` bytes. */
    method RpuCmdInit(addrGdram: u32, capacity: nat) returns (status: IpcStatus)
      modifies this`freeQ
      ensures Valid() && freeQ != null && fresh(freeQ)
      ensures status == IpcOk <==> WIFI_IPC_CMD_NUM <= capacity
      ensures freeQ.items == BufferAddrs(addrGdram, WIFI_IPC_CMD_SIZE, if WIFI_IPC_CMD_NUM <= capacity then WIFI_IPC_CMD_NUM else capacity)
    {
      status := InitFreeQ(addrGdram, capacity, WIFI_IPC_CMD_NUM, WIFI_IPC_CMD_SIZE);
    }

    /**
     * `wifi_ipc_recv_callback` with the address received: handed to the
     * receive callback, then returned to the free queue when there is one.
     * The source retries the push until it gets in; the model requires the
     * room that ends the retries.
     */
    method RecvCallback(globalAddr: u32)
      requires Valid() && (freeQ != null ==> |freeQ.items| < freeQ.capacity)
      modifies busyQ`received, Free()`items
      ensures Valid()
      ensures busyQ.received == old(busyQ.received) + [globalAddr]
      ensures freeQ != null ==> freeQ.items == old(freeQ.items) + [globalAddr]
    {
      busyQ.received := busyQ.received + [globalAddr];
      if freeQ != null {
        var ok := freeQ.Push(globalAddr);
      }
    }
  }
}
