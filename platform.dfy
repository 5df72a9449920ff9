/** Machine integer widths, opaque framework handles and the effects the
    application hands to the framework (frames sent, subscriptions
    requested, timers armed, LED writes). The framework itself is not
    modelled: every call into it becomes an entry appended to a log. */
module Platform {

  type byte = x: int | 0 <= x < 0x100

  const U32_MODULUS: nat := 0x1_0000_0000
  type u32 = x: int | 0 <= x < 0x1_0000_0000

  /** `size_t` on the target, a 32-bit ARM Cortex-M (an assumption: the
      sources do not fix the width): arithmetic on it wraps modulo 2^32. */
  const SIZE_T_MODULUS: nat := 0x1_0000_0000
  type size_t = x: int | 0 <= x < 0x1_0000_0000

  /** `(size_t)-1`, the largest size_t. */
  const SIZE_T_MAX: size_t := 0xFFFF_FFFF

  datatype Option<T> = None | Some(value: T)

  /** A whiteboard resource handle; `InvalidResource` is wb::ID_INVALID_RESOURCE. */
  datatype ResourceId = InvalidResource | Resource(handle: nat)

  /** A framework timer handle; `InvalidTimer` is wb::ID_INVALID_TIMER. */
  datatype TimerId = InvalidTimer | Timer(handle: nat)

  /** One request issued to the framework, in the order issued. */
  datatype Effect =
    | SendFrame(bytes: seq<byte>)          // asyncPut on the data characteristic
    | AsyncSubscribe(resource: ResourceId)
    | AsyncUnsubscribe(resource: ResourceId)
    | LedPut(on: bool)                     // asyncPut on Component/Led
    | StartTimer(duration: nat, timer: TimerId)
    | StopTimer(timer: TimerId)

  /** The bytes of a char array literal (every literal here is ASCII). */
  function Ascii(s: string): (r: seq<byte>)
    ensures |r| == |s|
    ensures forall i | 0 <= i < |s| :: r[i] == s[i] as int % 0x100
  {
    seq(|s|, i requires 0 <= i < |s| => s[i] as int % 0x100)
  }
}
