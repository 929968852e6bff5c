/**
 * `ShadowProcessService` of mitosis/src/shadow_process_service.rs: the
 * registry of prepared (shadow) processes, keyed by the caller's key. Each
 * entry bundles the shadow process, its descriptor serialised once into a
 * buffer remote children read, and the DC target that keeps the NIC
 * resources alive.
 *
 * The kernel work of `ShadowProcess::new_copy`/`new_cow` (capturing the
 * caller's registers, page table and VMAs) and the DC target pool are outside
 * this model: the captured descriptor and the pool's answer are parameters.
 */
module ShadowProcessServices {
  import opened Wrappers
  import opened Bytes
  import opened Seqs
  import opened Components
  import D = Descriptors

  /** How the shadow process shares the parent's memory: copied, or copy-on-write. */
  datatype Mode = Copy | Cow

  /** A DC target handed out by the pool; only its identity matters here. */
  datatype DCTarget = DCTarget(id: nat)

  datatype ShadowProcess = ShadowProcess(mode: Mode, descriptor: D.Descriptor)

  /** `ProcessBundler`: the process, its serialised descriptor and the targets it holds on to. */
  datatype ProcessBundle = ProcessBundle(process: ShadowProcess, serialized: seq<byte>, targets: seq<DCTarget>)

  /** A bundle's buffer is the descriptor's serialisation, written once when it was made. */
  ghost predicate Bundled(b: ProcessBundle)
  {
    D.WellSized(b.process.descriptor) && b.serialized == D.Encode(b.process.descriptor)
  }

  class ShadowProcessService {
    /** `registered_processes`. */
    var registered: map<nat, ProcessBundle>

    ghost predicate Valid()
      reads this
    {
      forall k :: k in registered ==> Bundled(registered[k])
    }

    /** `new`: nothing is registered. */
    constructor ()
      ensures registered == map[]
      ensures Valid()
    {
      registered := map[];
    }

    /** `query_descriptor_buf`: the serialised descriptor under `key`, which decodes back to that descriptor. */
    function QueryDescriptorBuf(key: nat): (r: Option<seq<byte>>)
      reads this
      ensures r.Some? <==> key in registered
      ensures Valid() && r.Some? ==> D.Decode(r.value) == QueryDescriptor(key)
    {
      if key in registered then
        var b := registered[key];
        assert Valid() ==> D.Decode(b.serialized) == Some(b.process.descriptor) by {
          if Valid() {
            D.RoundTrip(b.process.descriptor, []);
            AppendNothing(b.serialized);
          }
        }
        Some(b.serialized)
      else None
    }

    /** `query_descriptor`: the descriptor of the process registered under `key`. */
    function QueryDescriptor(key: nat): (r: Option<D.Descriptor>)
      reads this
      ensures r.Some? <==> key in registered
    {
      if key in registered then Some(registered[key].process.descriptor) else None
    }

    /**
     * The body shared by `add_myself_copy` and `add_myself_cow`: refuses a key
     * that is taken, then asks the DC target pool, then registers the bundle.
     * `captured` is the descriptor the kernel captures for the caller; the
     * pool's machine info replaces its own.
     */
    method AddMyself(key: nat, mode: Mode, captured: D.Descriptor, pool: Option<(DCTarget, RDMADescriptor)>)
      returns (r: Option<()>)
      requires Valid() && D.WellSized(captured)
      modifies this
      ensures Valid()
      ensures r.Some? <==> key !in old(registered) && pool.Some?
      ensures r.None? ==> registered == old(registered)
      ensures r.Some? ==>
                var d := captured.(machine_info := pool.value.1);
                registered == old(registered)[key := ProcessBundle(ShadowProcess(mode, d), D.Encode(d), [pool.value.0])]
    {
      if key in registered {
        return None;
      }
      if pool.None? {
        return None;
      }
      var (target, info) := pool.value;
      var bundle := NewBundle(ShadowProcess(mode, captured.(machine_info := info)), target);
      registered := registered[key := bundle];
      r := Some(());
    }

    /** `add_myself_copy`. */
    method AddMyselfCopy(key: nat, captured: D.Descriptor, pool: Option<(DCTarget, RDMADescriptor)>)
      returns (r: Option<()>)
      requires Valid() && D.WellSized(captured)
      modifies this
      ensures Valid()
      ensures r.Some? <==> key !in old(registered) && pool.Some?
      ensures r.None? ==> registered == old(registered)
      ensures r.Some? ==>
                registered.Keys == old(registered).Keys + {key} &&
                registered[key].process == ShadowProcess(Copy, captured.(machine_info := pool.value.1)) &&
                forall k :: k in old(registered) ==> registered[k] == old(registered)[k]
    {
      r := AddMyself(key, Copy, captured, pool);
    }

    /** `add_myself_cow`. */
    method AddMyselfCow(key: nat, captured: D.Descriptor, pool: Option<(DCTarget, RDMADescriptor)>)
      returns (r: Option<()>)
      requires Valid() && D.WellSized(captured)
      modifies this
      ensures Valid()
      ensures r.Some? <==> key !in old(registered) && pool.Some?
      ensures r.None? ==> registered == old(registered)
      ensures r.Some? ==>
                registered.Keys == old(registered).Keys + {key} &&
                registered[key].process == ShadowProcess(Cow, captured.(machine_info := pool.value.1)) &&
                forall k :: k in old(registered) ==> registered[k] == old(registered)[k]
    {
      r := AddMyself(key, Cow, captured, pool);
    }

    /** `unregister`: drops `key` (if present) and nothing else. */
    method Unregister(key: nat)
      requires Valid()
      modifies this
      ensures Valid()
      ensures registered == old(registered) - {key}
      ensures QueryDescriptor(key) == None && QueryDescriptorBuf(key) == None
      ensures key !in old(registered) ==> registered == old(registered)
    {
      registered := registered - {key};
    }
  }

  /**
   * `ProcessBundler::new`: allocates a zeroed buffer of
   * `serialization_buf_len` bytes and serialises the descriptor into it.
   */
  method NewBundle(process: ShadowProcess, target: DCTarget) returns (b: ProcessBundle)
    requires D.WellSized(process.descriptor)
    ensures Bundled(b)
    ensures b.process == process && b.targets == [target]
  {
    var buf := new byte[D.SerializationBufLen(process.descriptor)](_ => 0);
    var ok := D.Serialize(process.descriptor, buf, 0);
    assert buf[..] == buf[0..buf.Length];
    b := ProcessBundle(process, buf[..], [target]);
  }
}
