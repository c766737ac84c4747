/** internal/script: raw scriptPubKey bytes. */
module Script {

  type Byte = x: int | 0 <= x < 256
  type Bytes = seq<Byte>

  const OP_RETURN: Byte := 0x6a
  const MAX_SCRIPT_SIZE := 10000

  /** The exclusion rule shared by coin creation and the supply rollup. */
  predicate IsUnspendable(s: Bytes) {
    (|s| > 0 && s[0] == OP_RETURN) || |s| > MAX_SCRIPT_SIZE
  }
}
