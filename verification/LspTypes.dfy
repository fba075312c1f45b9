/** Return codes, bytes and the alignment macros shared by the other modules
    (src/include/lsp_types.h). */
module LspTypes {

  newtype byte = x: int | 0 <= x < 256

  /** One queue element: the bytes a caller hands to push and gets back from pop. */
  type Record = seq<byte>

  datatype Option<+T> = None | Some(value: T)

  /** A thread; any number of them. */
  type Tid = nat

  /** timeout == 0, 0 < timeout < LSP_TIMEOUT_MAX, timeout == LSP_TIMEOUT_MAX. */
  datatype Wait = NoWait | Bounded | Forever

  // The numbers are those of the header; LSP_ERR_INVALID and
  // LSP_ERR_RESOURCE_IN_USE really are the same number there.
  const LSP_ERR_NONE: int := 0
  const LSP_ERR_NOMEM: int := 2
  const LSP_ERR_MUTEX: int := 3
  const LSP_ERR_TIMEOUT: int := 4
  const LSP_ERR_INVALID: int := 5
  const LSP_ERR_RESOURCE_IN_USE: int := 5
  const LSP_ERR_QUEUE_FULL: int := 10
  const LSP_ERR_QUEUE_EMPTY: int := 11

  // lsp_conn_type_t and lsp_conn_state_t, as far as they matter here
  const CONN_SERVER: int := 1
  const CONN_FREE: nat := 0
  const CONN_CLOSED: nat := 1
  const CONN_LISTEN: nat := 3

  const LSP_PACKET_PORT_MAX: nat := 31

  /** sizeof(void *) on the 64-bit POSIX targets. */
  const POINTER_SIZE: nat := 8

  /** ALIGNED_SIZE: whole pointer-sized words, rounded up. */
  function AlignedSize(x: nat): nat {
    (x / POINTER_SIZE + (if x % POINTER_SIZE != 0 then 1 else 0)) * POINTER_SIZE
  }

  /** ALIGNED_SIZE is the least multiple of the pointer size that is not below its argument. */
  lemma AlignedSizeIsLeastMultiple(x: nat, m: nat)
    ensures x <= AlignedSize(x) && AlignedSize(x) % POINTER_SIZE == 0
    ensures m % POINTER_SIZE == 0 && x <= m ==> AlignedSize(x) <= m
    ensures AlignedSize(AlignedSize(x)) == AlignedSize(x)
  {
  }
}
