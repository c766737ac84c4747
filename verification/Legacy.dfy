/** internal/script/legacy.go: tokenizing a script, the fixed-shape matchers, and the
    bare multisig parser (BIP 11, section "Specification"). */
module Legacy {
  import opened Wrappers
  import opened Script

  const OP_FALSE: Byte := 0x00
  const OP_PUSHDATA1: Byte := 0x4c
  const OP_PUSHDATA2: Byte := 0x4d
  const OP_PUSHDATA4: Byte := 0x4e
  const OP_1NEGATE: Byte := 0x4f
  const OP_1: Byte := 0x51
  const OP_16: Byte := 0x60
  const OP_DUP: Byte := 0x76
  const OP_EQUAL: Byte := 0x87
  const OP_EQUALVERIFY: Byte := 0x88
  const OP_HASH160: Byte := 0xa9
  const OP_CHECKSIG: Byte := 0xac
  const OP_CHECKMULTISIG: Byte := 0xae

  const MAX_PUBKEYS := 20

  /** One opcode with the data it pushes; none for opcodes that push nothing. */
  datatype Token = Token(opcode: Byte, data: Bytes)

  datatype Step = Step(token: Token, next: nat)

  /** n bytes of data starting at `start`, if they are all there. */
  function Push(s: Bytes, op: Byte, start: nat, n: nat): (r: Option<Step>)
    ensures r.Some? <==> start + n <= |s|
    ensures r.Some? ==> r.value.next == start + n && r.value.token.opcode == op && |r.value.token.data| == n
  {
    if start + n > |s| then None else Some(Step(Token(op, s[start..start + n]), start + n))
  }

  /** k bytes from position i as a little-endian number. */
  function LittleEndian(s: Bytes, i: nat, k: nat): nat
    requires i + k <= |s|
    decreases k
  {
    if k == 0 then 0 else (s[i] as int) + 0x100 * LittleEndian(s, i + 1, k - 1)
  }

  /** The single script element at position i. */
  function NextToken(s: Bytes, i: nat): (r: Option<Step>)
    ensures r.Some? ==> i < r.value.next <= |s|
    ensures r.Some? ==> r.value.token.opcode == s[i]
  {
    if i >= |s| then None
    else
      var op := s[i];
      if op == OP_FALSE then Some(Step(Token(op, []), i + 1))
      else if op <= 0x4b then Push(s, op, i + 1, op)
      else if op == OP_PUSHDATA1 then
        if i + 2 > |s| then None else Push(s, op, i + 2, LittleEndian(s, i + 1, 1))
      else if op == OP_PUSHDATA2 then
        if i + 3 > |s| then None else Push(s, op, i + 3, LittleEndian(s, i + 1, 2))
      else if op == OP_PUSHDATA4 then
        if i + 5 > |s| then None
        else Push(s, op, i + 5, LittleEndian(s, i + 1, 4))
      else Some(Step(Token(op, []), i + 1))
  }

  /** The whole rest of the script as tokens, or nothing if it is truncated somewhere. */
  function Tokenize(s: Bytes, i: nat): Option<seq<Token>>
    requires i <= |s|
    decreases |s| - i
  {
    if i == |s| then Some([])
    else
      var step := NextToken(s, i);
      if step.None? then None
      else
        var rest := Tokenize(s, step.value.next);
        if rest.None? then None else Some([step.value.token] + rest.value)
  }

  // --- push-only scripts ---

  /** OP_0, a data push, OP_1NEGATE or OP_1..OP_16. 0x50 (OP_RESERVED) is not one. */
  predicate IsPush(op: Byte) {
    op <= OP_1NEGATE || OP_1 <= op <= OP_16
  }

  ghost predicate PushOnly(s: Bytes, i: nat)
    requires i <= |s|
  {
    Tokenize(s, i).Some? && forall k :: 0 <= k < |Tokenize(s, i).value| ==> IsPush(Tokenize(s, i).value[k].opcode)
  }

  lemma PushOnlyStep(s: Bytes, i: nat)
    requires i < |s|
    ensures PushOnly(s, i) <==> IsPush(s[i]) && NextToken(s, i).Some? && PushOnly(s, NextToken(s, i).value.next)
  {
    var step := NextToken(s, i);
    if step.Some? && Tokenize(s, step.value.next).Some? {
      var rest := Tokenize(s, step.value.next).value;
      var all := Tokenize(s, i).value;
      assert all[0].opcode == s[i] && forall k :: 0 <= k < |rest| ==> all[k + 1] == rest[k];
      if PushOnly(s, step.value.next) && IsPush(s[i]) {
        forall k | 0 <= k < |all|
          ensures IsPush(all[k].opcode)
        {
          if k > 0 {
            assert all[k] == rest[k - 1];
          }
        }
      }
    }
  }

  /** isPushOnly's cursor loop: every access is in bounds, and it always ends. */
  method IsPushOnly(s: Bytes) returns (ok: bool)
    ensures ok <==> PushOnly(s, 0)
  {
    var i := 0;
    while i < |s|
      invariant 0 <= i <= |s|
      invariant PushOnly(s, 0) <==> PushOnly(s, i)
      decreases |s| - i
    {
      PushOnlyStep(s, i);
      var op: int := s[i];
      var width: int := 1;
      if 0x01 <= op <= 0x4b {
        width := 1 + op;
      } else if op == OP_PUSHDATA1 {
        if i + 2 > |s| {
          return false;
        }
        width := 2 + LittleEndian(s, i + 1, 1);
      } else if op == OP_PUSHDATA2 {
        if i + 3 > |s| {
          return false;
        }
        width := 3 + LittleEndian(s, i + 1, 2);
      } else if op == OP_PUSHDATA4 {
        if i + 5 > |s| {
          return false;
        }
        width := 5 + LittleEndian(s, i + 1, 4);
      } else if !(op == OP_FALSE || op == OP_1NEGATE || OP_1 <= op <= OP_16) {
        return false;
      }
      if i + width > |s| {
        return false;
      }
      i := i + width;
    }
    return true;
  }

  // --- fixed shapes ---

  predicate IsPubKey(data: Bytes) {
    |data| > 0
    && if data[0] == 0x02 || data[0] == 0x03 then |data| == 33
       else (data[0] == 0x04 || data[0] == 0x06 || data[0] == 0x07) && |data| == 65
  }

  function MatchP2PKH(s: Bytes): Option<Bytes> {
    if |s| != 25 then None
    else if s[0] != OP_DUP || s[1] != OP_HASH160 || s[2] != 20 || s[23] != OP_EQUALVERIFY || s[24] != OP_CHECKSIG then None
    else Some(s[3..23])
  }

  function MatchP2SH(s: Bytes): Option<Bytes> {
    if |s| != 23 then None
    else if s[0] != OP_HASH160 || s[1] != 20 || s[22] != OP_EQUAL then None
    else Some(s[2..22])
  }

  function MatchP2PK(s: Bytes): Option<Bytes> {
    if |s| == 35 && s[0] == 33 && s[34] == OP_CHECKSIG then
      if IsPubKey(s[1..34]) then Some(s[1..34]) else None
    else if |s| == 67 && s[0] == 65 && s[66] == OP_CHECKSIG then
      if IsPubKey(s[1..66]) then Some(s[1..66]) else None
    else None
  }

  ghost predicate MatchesNullData(s: Bytes) {
    |s| > 0 && s[0] == OP_RETURN && PushOnly(s[1..], 0)
  }

  // --- bare multisig ---

  /** A minimally encoded number of the multisig domain, within [low, high]. */
  function ScriptNumber(tok: Token, low: nat, high: nat): (r: Option<nat>)
    ensures r.Some? ==> low <= r.value <= high && 1 <= r.value <= MAX_PUBKEYS
  {
    if OP_1 <= tok.opcode <= OP_16 then
      var v: int := (tok.opcode as int) - OP_1 + 1;
      if v < low || v > high then None else Some(v)
    else if tok.opcode == 0x01 && |tok.data| == 1 then
      var v: int := tok.data[0];
      if v < 17 || v > MAX_PUBKEYS then None
      else if v < low || v > high then None
      else Some(v)
    else None
  }

  datatype Multisig = Multisig(keys: seq<Bytes>, m: nat, n: nat)

  datatype Split = Split(keys: seq<Bytes>, after: Token, next: nat)

  /** The public keys pushed from position i on, and the first token that is no key. */
  function SplitKeys(s: Bytes, i: nat): (r: Option<Split>)
    requires i <= |s|
    ensures r.Some? ==> i < r.value.next <= |s| && !IsPubKey(r.value.after.data)
    decreases |s| - i
  {
    var step := NextToken(s, i);
    if step.None? then None
    else if !IsPubKey(step.value.token.data) then Some(Split([], step.value.token, step.value.next))
    else
      var rest := SplitKeys(s, step.value.next);
      if rest.None? then None
      else Some(Split([step.value.token.data] + rest.value.keys, rest.value.after, rest.value.next))
  }

  function MultisigOf(s: Bytes): Option<Multisig> {
    if |s| < 3 || s[|s| - 1] != OP_CHECKMULTISIG then None
    else
      var first := NextToken(s, 0);
      if first.None? then None
      else
        var m := ScriptNumber(first.value.token, 1, MAX_PUBKEYS);
        if m.None? then None
        else
          var split := SplitKeys(s, first.value.next);
          if split.None? then None
          else
            var n := ScriptNumber(split.value.after, m.value, MAX_PUBKEYS);
            if n.None? || |split.value.keys| != n.value || split.value.next != |s| - 1 then None
            else Some(Multisig(split.value.keys, m.value, n.value))
  }

  /** matchMultisig: the cursor loop collects keys until the first other token. */
  method MatchMultisig(s: Bytes) returns (r: Option<Multisig>)
    ensures r == MultisigOf(s)
  {
    if |s| < 3 || s[|s| - 1] != OP_CHECKMULTISIG {
      return None;
    }
    var first := NextToken(s, 0);
    if first.None? {
      return None;
    }
    var m := ScriptNumber(first.value.token, 1, MAX_PUBKEYS);
    if m.None? {
      return None;
    }
    var i, keys: seq<Bytes> := first.value.next, [];
    if SplitKeys(s, i).Some? {
      assert keys + SplitKeys(s, i).value.keys == SplitKeys(s, i).value.keys;
    }
    var after := Token(OP_FALSE, []);
    while true
      invariant first.value.next <= i <= |s|
      invariant SplitKeys(s, first.value.next)
                == if SplitKeys(s, i).None? then None
                   else Some(Split(keys + SplitKeys(s, i).value.keys, SplitKeys(s, i).value.after, SplitKeys(s, i).value.next))
      decreases |s| - i
    {
      var step := NextToken(s, i);
      if step.None? {
        return None;
      }
      if !IsPubKey(step.value.token.data) {
        after := step.value.token;
        assert keys + [] == keys;
        i := step.value.next;
        break;
      }
      if SplitKeys(s, step.value.next).Some? {
        assert keys + ([step.value.token.data] + SplitKeys(s, step.value.next).value.keys)
            == keys + [step.value.token.data] + SplitKeys(s, step.value.next).value.keys;
      }
      keys := keys + [step.value.token.data];
      i := step.value.next;
    }
    var n := ScriptNumber(after, m.value, MAX_PUBKEYS);
    if n.None? {
      return None;
    }
    if |keys| != n.value || i != |s| - 1 {
      return None;
    }
    return Some(Multisig(keys, m.value, n.value));
  }
}
