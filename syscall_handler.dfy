/**
 * `MitosisSysCallHandler` of mitosis/src/core_syscall_handler.rs: the state
 * one open file of the mitosis device keeps about its caller (`CallerData`),
 * the `ioctrl` dispatch, prepare, resume, `Drop` and the page-fault lookup.
 *
 * The global registry is passed explicitly. What the kernel, RDMA and RPC
 * layers answer is a parameter: the descriptor the kernel captures on
 * prepare, the DC target pool's answer, the bytes a remote resume fetches
 * (None when the reply to the lookup RPC is an error or does not decode, or
 * when the one-sided read fails), whether the access information for the
 * fetched descriptor's machine can be built, whether a session connect
 * succeeds and whether the remote page read succeeds. A missing RPC caller,
 * a failed RPC send or a failed receive-buffer registration panics in the
 * kernel module and is not modelled.
 */
module SyscallHandlers {
  import opened Wrappers
  import opened Bytes
  import opened Components
  import D = Descriptors
  import S = ShadowProcessServices

  /** `VM_FAULT_SIGSEGV`, the fault code Linux defines as 0x0002. */
  const VM_FAULT_SIGSEGV: int := 2

  /**
   * The `ioctrl` commands. The request structures `ResumeRemote` and
   * `Connect` copy from user memory are given as their fields; `Unknown` is
   * any other command number.
   */
  datatype Command =
    | Nil
    | Prepare
    | ResumeLocal
    | ResumeRemote(machineId: nat, handlerId: nat)
    | Connect(machineId: nat, gid: string, nicId: nat)
    | Unknown(code: nat)

  /** What the outside world answers during one call. */
  datatype World = World(
    cow: bool,
    captured: D.Descriptor,
    pool: Option<(S.DCTarget, RDMADescriptor)>,
    fetched: Option<seq<byte>>,
    accessOk: bool,
    connected: bool)

  /** `ResumeDataStruct` without its `AccessInfo`, which is derived from the descriptor's machine info. */
  datatype ResumeData = ResumeData(handlerId: nat, descriptor: D.Descriptor)

  /**
   * A successful prepare registered `key` and nothing else: the registry
   * `after` is `before` plus `key`, whose process is the captured descriptor
   * with the pool's machine information, copied or copy-on-write as `cow`
   * selects.
   */
  ghost predicate Registered(before: map<nat, S.ProcessBundle>, after: map<nat, S.ProcessBundle>, key: nat,
                             cow: bool, captured: D.Descriptor, pool: Option<(S.DCTarget, RDMADescriptor)>)
  {
    pool.Some? &&
    after.Keys == before.Keys + {key} &&
    after[key].process == S.ShadowProcess(if cow then S.Cow else S.Copy, captured.(machine_info := pool.value.1)) &&
    forall k :: k in before ==> after[k] == before[k]
  }

  class SyscallHandler {
    /** `caller_status.prepared_key`: the key this caller registered, at most one. */
    var preparedKey: Option<nat>
    /** `caller_status.resume_related`: the descriptor this caller resumed from, at most one. */
    var resumeRelated: Option<ResumeData>

    /** `open`: a fresh caller has neither prepared nor resumed. */
    constructor ()
      ensures preparedKey == None && resumeRelated == None
    {
      preparedKey := None;
      resumeRelated := None;
    }

    /** `ioctrl`: dispatches on the command; `Nil` does nothing and answers 0, an unknown command -1. */
    method Ioctl(cmd: Command, arg: nat, sps: S.ShadowProcessService, w: World) returns (ret: int)
      requires sps.Valid() && D.WellSized(w.captured)
      modifies this, sps
      ensures sps.Valid()
      ensures ret == 0 || ret == -1
      ensures cmd.Nil? || cmd.Unknown? || cmd.Connect? ==>
                preparedKey == old(preparedKey) && resumeRelated == old(resumeRelated) &&
                sps.registered == old(sps.registered)
      ensures cmd.Nil? ==> ret == 0
      ensures cmd.Unknown? ==> ret == -1
      ensures cmd.Connect? ==> (ret == 0 <==> w.connected)
      ensures cmd.Prepare? ==>
                resumeRelated == old(resumeRelated) &&
                (ret == 0 <==> old(preparedKey).None? && arg !in old(sps.registered) && w.pool.Some?) &&
                (ret == 0 ==> preparedKey == Some(arg) && Registered(old(sps.registered), sps.registered, arg, w.cow, w.captured, w.pool)) &&
                (ret == -1 ==> preparedKey == old(preparedKey) && sps.registered == old(sps.registered))
      ensures cmd.ResumeLocal? ==>
                preparedKey == old(preparedKey) && sps.registered == old(sps.registered) &&
                (ret == 0 <==> old(resumeRelated).None? && arg in sps.registered) &&
                (ret == 0 ==> resumeRelated == Some(ResumeData(arg, sps.QueryDescriptor(arg).value))) &&
                (ret == -1 ==> resumeRelated == old(resumeRelated))
      ensures cmd.ResumeRemote? ==>
                preparedKey == old(preparedKey) && sps.registered == old(sps.registered) &&
                (ret == 0 <==> old(resumeRelated).None? && w.fetched.Some? && D.Decode(w.fetched.value).Some? && w.accessOk) &&
                (ret == 0 ==> resumeRelated == Some(ResumeData(cmd.handlerId, D.Decode(w.fetched.value).value))) &&
                (ret == -1 ==> resumeRelated == old(resumeRelated))
    {
      match cmd
      case Nil =>
        ret := 0;
      case Prepare =>
        ret := SyscallPrepare(arg, sps, w.cow, w.captured, w.pool);
      case ResumeLocal =>
        ret := SyscallLocalResume(arg, sps);
      case ResumeRemote(_, handlerId) =>
        ret := SyscallRemoteResume(handlerId, w.fetched, w.accessOk);
      case Connect(_, _, _) =>
        ret := if w.connected then 0 else -1;
      case Unknown(_) =>
        ret := -1;
    }

    /**
     * `syscall_prepare`: refuses a second prepare; otherwise registers the
     * caller under `key` (copy or copy-on-write as the build selects) and
     * remembers the key only when the registry took it.
     */
    method SyscallPrepare(key: nat, sps: S.ShadowProcessService, cow: bool, captured: D.Descriptor,
                          pool: Option<(S.DCTarget, RDMADescriptor)>) returns (ret: int)
      requires sps.Valid() && D.WellSized(captured)
      modifies this, sps
      ensures sps.Valid()
      ensures resumeRelated == old(resumeRelated)
      ensures old(preparedKey).Some? ==> ret == -1 && preparedKey == old(preparedKey) && sps.registered == old(sps.registered)
      ensures old(preparedKey).None? ==>
                (ret == 0 <==> key !in old(sps.registered) && pool.Some?) &&
                (ret == 0 ==> preparedKey == Some(key) &&
                              Registered(old(sps.registered), sps.registered, key, cow, captured, pool) &&
                              sps.QueryDescriptor(key) == Some(captured.(machine_info := pool.value.1))) &&
                (ret == -1 ==> preparedKey == None && sps.registered == old(sps.registered))
      ensures ret == 0 || ret == -1
    {
      if preparedKey.Some? {
        return -1;
      }
      var res;
      if cow {
        res := sps.AddMyselfCow(key, captured, pool);
      } else {
        res := sps.AddMyselfCopy(key, captured, pool);
      }
      if res.Some? {
        preparedKey := Some(key);
        return 0;
      }
      return -1;
    }

    /**
     * `syscall_local_resume`: refuses a second resume, and a handler id the
     * registry does not know; otherwise keeps a copy of the registered
     * descriptor.
     */
    method SyscallLocalResume(handlerId: nat, sps: S.ShadowProcessService) returns (ret: int)
      modifies this
      ensures preparedKey == old(preparedKey)
      ensures ret == 0 <==> old(resumeRelated).None? && handlerId in sps.registered
      ensures ret == 0 || ret == -1
      ensures ret == 0 ==> resumeRelated == Some(ResumeData(handlerId, sps.QueryDescriptor(handlerId).value))
      ensures ret == -1 ==> resumeRelated == old(resumeRelated)
    {
      if resumeRelated.Some? {
        return -1;
      }
      var descriptor := sps.QueryDescriptor(handlerId);
      if descriptor.Some? {
        resumeRelated := Some(ResumeData(handlerId, descriptor.value));
        return 0;
      }
      return -1;
    }

    /**
     * `syscall_local_resume_w_rpc` after the RPC: refuses a second resume,
     * then fails when nothing was fetched, when the fetched bytes do not
     * deserialise, or when no access information can be built for the
     * decoded machine info (`accessOk` false); otherwise keeps the decoded
     * descriptor.
     */
    method SyscallRemoteResume(handlerId: nat, fetched: Option<seq<byte>>, accessOk: bool) returns (ret: int)
      modifies this
      ensures preparedKey == old(preparedKey)
      ensures ret == 0 <==> old(resumeRelated).None? && fetched.Some? && D.Decode(fetched.value).Some? && accessOk
      ensures ret == 0 || ret == -1
      ensures ret == 0 ==> resumeRelated == Some(ResumeData(handlerId, D.Decode(fetched.value).value))
      ensures ret == -1 ==> resumeRelated == old(resumeRelated)
    {
      if resumeRelated.Some? {
        return -1;
      }
      if fetched.None? {
        return -1;
      }
      var des := D.Deserialize(fetched.value);
      if des.None? {
        return -1;
      }
      if !accessOk {
        return -1;
      }
      resumeRelated := Some(ResumeData(handlerId, des.value));
      return 0;
    }

    /** `drop`: unregisters the prepared key, if there is one, and nothing else. */
    method Drop(sps: S.ShadowProcessService)
      requires sps.Valid()
      modifies sps
      ensures sps.Valid()
      ensures preparedKey.None? ==> sps.registered == old(sps.registered)
      ensures preparedKey.Some? ==> sps.registered == old(sps.registered) - {preparedKey.value}
    {
      if preparedKey.Some? {
        sps.Unregister(preparedKey.value);
      }
    }

    /**
     * `handle_page_fault`: translates the fault address through the resumed
     * descriptor; an unmapped address is a SIGSEGV, a mapped one is read
     * from the remote physical address `readFrom`, and the fault succeeds iff
     * that read does.
     */
    method HandlePageFault(faultAddr: u64, readOk: bool) returns (ret: int, readFrom: Option<u64>)
      requires resumeRelated.Some?
      ensures readFrom == D.LookupPgTable(resumeRelated.value.descriptor, faultAddr)
      ensures readFrom.None? ==> ret == VM_FAULT_SIGSEGV
      ensures readFrom.Some? ==> (ret == 0 <==> readOk) && (ret != 0 ==> ret == VM_FAULT_SIGSEGV)
      ensures ret == VM_FAULT_SIGSEGV <==>
                !readOk || forall i :: 0 <= i < |resumeRelated.value.descriptor.page_table.entries| ==>
                                         resumeRelated.value.descriptor.page_table.entries[i].virt != faultAddr
    {
      readFrom := D.LookupPgTable(resumeRelated.value.descriptor, faultAddr);
      if readFrom.None? {
        return VM_FAULT_SIGSEGV, None;
      }
      ret := if readOk then 0 else VM_FAULT_SIGSEGV;
    }
  }
}
