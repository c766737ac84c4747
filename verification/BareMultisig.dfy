/** What the bare multisig parser accepts, in terms of the script's tokens, and why it
    inverts the encoder. */
module BareMultisig {
  import opened Wrappers
  import opened Script
  import opened Legacy

  /** m, n valid keys, n, OP_CHECKMULTISIG, and nothing else. */
  ghost predicate MultisigTokens(toks: seq<Token>, ms: Multisig) {
    && |ms.keys| == ms.n && |toks| == ms.n + 3
    && ScriptNumber(toks[0], 1, MAX_PUBKEYS) == Some(ms.m)
    && (forall k :: 0 <= k < ms.n ==> toks[k + 1].data == ms.keys[k] && IsPubKey(ms.keys[k]))
    && ScriptNumber(toks[ms.n + 1], ms.m, MAX_PUBKEYS) == Some(ms.n)
    && toks[ms.n + 2] == Token(OP_CHECKMULTISIG, [])
  }

  ghost predicate KeyTokens(toks: seq<Token>, keys: seq<Bytes>) {
    |toks| == |keys| && forall k :: 0 <= k < |keys| ==> toks[k].data == keys[k] && IsPubKey(keys[k])
  }

  /** A number token never looks like a key. */
  lemma NumberIsNoKey(s: Bytes, i: nat, low: nat, high: nat)
    requires NextToken(s, i).Some? && ScriptNumber(NextToken(s, i).value.token, low, high).Some?
    ensures !IsPubKey(NextToken(s, i).value.token.data)
  {
  }

  lemma EmptyKeys()
    ensures KeyTokens([], [])
  {
  }

  lemma PrependKey(first: Token, toks: seq<Token>, keys: seq<Bytes>)
    requires KeyTokens(toks, keys) && IsPubKey(first.data)
    ensures KeyTokens([first] + toks, [first.data] + keys)
  {
  }

  lemma {:induction false} SplitTokens(s: Bytes, i: nat) returns (toks: seq<Token>)
    requires i <= |s| && SplitKeys(s, i).Some? && Tokenize(s, SplitKeys(s, i).value.next).Some?
    ensures KeyTokens(toks, SplitKeys(s, i).value.keys)
    ensures Tokenize(s, i) == Some(toks + [SplitKeys(s, i).value.after] + Tokenize(s, SplitKeys(s, i).value.next).value)
    decreases |s| - i
  {
    hide NextToken, KeyTokens, IsPubKey;
    EmptyKeys();
    var step := NextToken(s, i).value;
    if IsPubKey(step.token.data) {
      var rest := SplitTokens(s, step.next);
      toks := [step.token] + rest;
      PrependKey(step.token, rest, SplitKeys(s, step.next).value.keys);
      assert toks + [SplitKeys(s, i).value.after] + Tokenize(s, SplitKeys(s, i).value.next).value
          == [step.token] + (rest + [SplitKeys(s, i).value.after] + Tokenize(s, SplitKeys(s, i).value.next).value);
    } else {
      toks := [];
      assert [step.token] + Tokenize(s, step.next).value == [] + [step.token] + Tokenize(s, step.next).value;
    }
  }

  lemma {:induction false} TokensSplit(s: Bytes, i: nat, toks: seq<Token>, keys: seq<Bytes>, after: Token, rest: seq<Token>)
    requires i <= |s| && Tokenize(s, i) == Some(toks + [after] + rest)
    requires KeyTokens(toks, keys) && !IsPubKey(after.data)
    ensures SplitKeys(s, i).Some? && SplitKeys(s, i).value.keys == keys && SplitKeys(s, i).value.after == after
    ensures Tokenize(s, SplitKeys(s, i).value.next) == Some(rest)
    decreases |toks|
  {
    var all := toks + [after] + rest;
    var step := NextToken(s, i).value;
    assert all[0] == step.token && all[1..] == Tokenize(s, step.next).value;
    if toks == [] {
      assert all[1..] == rest;
    } else {
      assert toks[0].data == keys[0];
      assert all[1..] == toks[1..] + [after] + rest;
      TokensSplit(s, step.next, toks[1..], keys[1..], after, rest);
    }
  }

  lemma LastToken(s: Bytes, i: nat)
    requires i <= |s|
    ensures Tokenize(s, i) == Some([Token(OP_CHECKMULTISIG, [])]) <==> i + 1 == |s| && s[i] == OP_CHECKMULTISIG
  {
    if i < |s| && NextToken(s, i).Some? {
      var step := NextToken(s, i).value;
      EmptyTokens(s, step.next);
      assert s[i] == OP_CHECKMULTISIG ==> step == Step(Token(OP_CHECKMULTISIG, []), i + 1);
      if Tokenize(s, step.next).Some? {
        var all := Tokenize(s, i).value;
        assert all[0] == step.token && all[1..] == Tokenize(s, step.next).value;
        if i + 1 == |s| && s[i] == OP_CHECKMULTISIG {
          assert all == [step.token];
        }
      }
    }
  }

  lemma EmptyTokens(s: Bytes, i: nat)
    requires i <= |s|
    ensures Tokenize(s, i) == Some([]) <==> i == |s|
  {
    if i < |s| && Tokenize(s, i).Some? {
      assert |Tokenize(s, i).value| > 0;
    }
  }

  /** Accepted scripts tokenize as m, n keys, n, OP_CHECKMULTISIG. */
  lemma MultisigSound(s: Bytes, ms: Multisig)
    requires MultisigOf(s) == Some(ms)
    ensures Tokenize(s, 0).Some? && MultisigTokens(Tokenize(s, 0).value, ms)
    ensures 1 <= ms.m <= ms.n <= MAX_PUBKEYS
  {
    var first := NextToken(s, 0).value;
    var split := SplitKeys(s, first.next).value;
    LastToken(s, split.next);
    var toks := SplitTokens(s, first.next);
    var all := Tokenize(s, 0).value;
    assert all == [first.token] + (toks + [split.after] + [Token(OP_CHECKMULTISIG, [])]);
    forall k | 0 <= k < ms.n
      ensures all[k + 1].data == ms.keys[k] && IsPubKey(ms.keys[k])
    {
      assert all[k + 1] == toks[k];
    }
  }

  /** And every script that tokenizes so is accepted. */
  lemma MultisigComplete(s: Bytes, ms: Multisig)
    requires Tokenize(s, 0).Some? && MultisigTokens(Tokenize(s, 0).value, ms)
    ensures MultisigOf(s) == Some(ms)
  {
    var all, n := Tokenize(s, 0).value, ms.n;
    var first := NextToken(s, 0).value;
    assert all[0] == first.token && all[1..] == Tokenize(s, first.next).value;
    var toks, after, rest := all[1..n + 1], all[n + 1], [all[n + 2]];
    assert all[1..] == toks + [after] + rest;
    AfterIsNoKey(s, first.next, toks, after, rest, ms.m, MAX_PUBKEYS);
    TokensSplit(s, first.next, toks, ms.keys, after, rest);
    LastToken(s, SplitKeys(s, first.next).value.next);
  }

  lemma {:induction false} AfterIsNoKey(s: Bytes, i: nat, toks: seq<Token>, after: Token, rest: seq<Token>, low: nat, high: nat)
    requires i <= |s| && Tokenize(s, i) == Some(toks + [after] + rest) && ScriptNumber(after, low, high).Some?
    ensures !IsPubKey(after.data)
    decreases |toks|
  {
    var all := toks + [after] + rest;
    var step := NextToken(s, i).value;
    assert all[0] == step.token && all[1..] == Tokenize(s, step.next).value;
    if toks == [] {
      NumberIsNoKey(s, i, low, high);
    } else {
      assert all[1..] == toks[1..] + [after] + rest;
      AfterIsNoKey(s, step.next, toks[1..], after, rest, low, high);
    }
  }

  // --- the encoder ---

  function EncodeNumber(v: nat): Bytes
    requires 1 <= v <= MAX_PUBKEYS
  {
    if v <= 16 then [0x50 + v] else [0x01, v]
  }

  function PushOf(key: Bytes): Bytes
    requires IsPubKey(key)
  {
    var length: Byte := |key|;
    [length] + key
  }

  function EncodeKeys(keys: seq<Bytes>): Bytes
    requires forall k :: 0 <= k < |keys| ==> IsPubKey(keys[k])
  {
    if keys == [] then [] else PushOf(keys[0]) + EncodeKeys(keys[1..])
  }

  ghost predicate ValidMultisig(ms: Multisig) {
    1 <= ms.m <= ms.n <= MAX_PUBKEYS && |ms.keys| == ms.n && forall k :: 0 <= k < |ms.keys| ==> IsPubKey(ms.keys[k])
  }

  /** <m> <key 1> ... <key n> <n> OP_CHECKMULTISIG. */
  ghost function Encode(ms: Multisig): Bytes
    requires ValidMultisig(ms)
  {
    EncodeNumber(ms.m) + (EncodeKeys(ms.keys) + (EncodeNumber(ms.n) + [OP_CHECKMULTISIG]))
  }

  function Shifted(r: Option<Step>, offset: nat): Option<Step> {
    if r.None? then None else Some(Step(r.value.token, offset + r.value.next))
  }

  lemma ShiftedLittleEndian(a: Bytes, b: Bytes, i: nat, k: nat)
    requires i + k <= |b|
    ensures LittleEndian(a + b, |a| + i, k) == LittleEndian(b, i, k)
    decreases k
  {
    if k > 0 {
      ShiftedLittleEndian(a, b, i + 1, k - 1);
    }
  }

  lemma ShiftedPush(a: Bytes, b: Bytes, op: Byte, start: nat, n: nat)
    ensures Push(a + b, op, |a| + start, n) == Shifted(Push(b, op, start, n), |a|)
  {
    if start + n <= |b| {
      assert (a + b)[|a| + start..|a| + start + n] == b[start..start + n];
    }
  }

  /** Tokens do not depend on what precedes them. */
  lemma ShiftedToken(a: Bytes, b: Bytes, i: nat)
    ensures NextToken(a + b, |a| + i) == Shifted(NextToken(b, i), |a|)
  {
    hide LittleEndian, Push;
    if i < |b| {
      var op := b[i];
      assert (a + b)[|a| + i] == op;
      ShiftedPush(a, b, op, i + 1, op);
      if i + 2 <= |b| {
        ShiftedLittleEndian(a, b, i + 1, 1);
        ShiftedPush(a, b, op, i + 2, LittleEndian(b, i + 1, 1));
      }
      if i + 3 <= |b| {
        ShiftedLittleEndian(a, b, i + 1, 2);
        ShiftedPush(a, b, op, i + 3, LittleEndian(b, i + 1, 2));
      }
      if i + 5 <= |b| {
        ShiftedLittleEndian(a, b, i + 1, 4);
        ShiftedPush(a, b, op, i + 5, LittleEndian(b, i + 1, 4));
      }
    }
  }

  lemma {:induction false} ShiftedTokens(a: Bytes, b: Bytes, i: nat)
    requires i <= |b|
    ensures Tokenize(a + b, |a| + i) == Tokenize(b, i)
    decreases |b| - i
  {
    hide NextToken;
    ShiftedToken(a, b, i);
    if i < |b| && NextToken(b, i).Some? {
      NextInside(b, i);
      ShiftedTokens(a, b, NextToken(b, i).value.next);
    }
  }

  lemma NextInside(b: Bytes, i: nat)
    ensures NextToken(b, i).Some? ==> i < NextToken(b, i).value.next <= |b|
  {
  }

  /** A first token of exactly |a| bytes goes in front of the rest's tokens. */
  lemma TokenInFront(a: Bytes, rest: Bytes, tok: Token)
    requires |a| > 0 && NextToken(a + rest, 0) == Some(Step(tok, |a|)) && Tokenize(rest, 0).Some?
    ensures Tokenize(a + rest, 0) == Some([tok] + Tokenize(rest, 0).value)
  {
    hide NextToken;
    ShiftedTokens(a, rest, 0);
  }

  lemma NumberToken(v: nat, rest: Bytes, low: nat, high: nat) returns (tok: Token)
    requires 1 <= v <= MAX_PUBKEYS && low <= v <= high
    ensures NextToken(EncodeNumber(v) + rest, 0) == Some(Step(tok, |EncodeNumber(v)|)) && |EncodeNumber(v)| > 0
    ensures ScriptNumber(tok, low, high) == Some(v)
  {
    var s := EncodeNumber(v) + rest;
    tok := if v <= 16 then Token(0x50 + v, []) else Token(0x01, [v]);
    assert s[0] == EncodeNumber(v)[0];
    if v > 16 {
      assert s[1..2] == [v];
    }
  }

  lemma KeyToken(key: Bytes, rest: Bytes)
    requires IsPubKey(key)
    ensures NextToken([|key|] + key + rest, 0) == Some(Step(Token(|key|, key), |[|key|] + key|))
  {
    var s := [|key|] + key + rest;
    assert s[1..1 + |key|] == key;
  }

  lemma {:induction false} KeysInFront(keys: seq<Bytes>, rest: Bytes) returns (toks: seq<Token>)
    requires (forall k :: 0 <= k < |keys| ==> IsPubKey(keys[k])) && Tokenize(rest, 0).Some?
    ensures KeyTokens(toks, keys)
    ensures Tokenize(EncodeKeys(keys) + rest, 0) == Some(toks + Tokenize(rest, 0).value)
    decreases |keys|
  {
    if keys == [] {
      toks := [];
      assert EncodeKeys(keys) + rest == rest;
      assert [] + Tokenize(rest, 0).value == Tokenize(rest, 0).value;
    } else {
      var tail := EncodeKeys(keys[1..]) + rest;
      var more := KeysInFront(keys[1..], rest);
      var tok := Token(|keys[0]|, keys[0]);
      toks := [tok] + more;
      KeyToken(keys[0], tail);
      TokenInFront([|keys[0]|] + keys[0], tail, tok);
      assert EncodeKeys(keys) + rest == [|keys[0]|] + keys[0] + tail;
      assert [tok] + (more + Tokenize(rest, 0).value) == toks + Tokenize(rest, 0).value;
    }
  }

  /** The parser inverts the encoder on every valid m-of-n script. */
  lemma MultisigRoundTrip(ms: Multisig)
    requires ValidMultisig(ms)
    ensures MultisigOf(Encode(ms)) == Some(ms)
  {
    hide NextToken, EncodeNumber, EncodeKeys;
    var last := [OP_CHECKMULTISIG];
    LastToken(last, 0);
    var nTok := NumberToken(ms.n, last, ms.m, MAX_PUBKEYS);
    TokenInFront(EncodeNumber(ms.n), last, nTok);
    var tail := EncodeNumber(ms.n) + last;
    var keyToks := KeysInFront(ms.keys, tail);
    var mTok := NumberToken(ms.m, EncodeKeys(ms.keys) + tail, 1, MAX_PUBKEYS);
    TokenInFront(EncodeNumber(ms.m), EncodeKeys(ms.keys) + tail, mTok);
    var all := Tokenize(Encode(ms), 0).value;
    assert all == [mTok] + (keyToks + ([nTok] + [Token(OP_CHECKMULTISIG, [])]));
    assert forall k :: 0 <= k < ms.n ==> all[k + 1] == keyToks[k];
    MultisigComplete(Encode(ms), ms);
  }
}
