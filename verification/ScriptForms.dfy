/** The forms of scripts byte by byte, and that the cursor code recognizes exactly them. */
module ScriptForms {
  import opened Wrappers
  import opened Script
  import opened Legacy
  import opened BareMultisig

  function Concat(parts: seq<Bytes>): Bytes {
    if parts == [] then [] else parts[0] + Concat(parts[1..])
  }

  /** One push: OP_0, OP_1NEGATE, OP_1 to OP_16, or a length in one of four encodings and
      as many bytes of data. */
  ghost predicate PushElement(e: Bytes) {
    && |e| > 0
    && (|| (|e| == 1 && (e[0] == 0x00 || e[0] == 0x4f || 0x51 <= e[0] <= 0x60))
        || (0x01 <= e[0] <= 0x4b && |e| == 1 + (e[0] as int))
        || (e[0] == 0x4c && |e| >= 2 && |e| == 2 + (e[1] as int))
        || (e[0] == 0x4d && |e| >= 3 && |e| == 3 + (e[1] as int) + 0x100 * (e[2] as int))
        || (e[0] == 0x4e && |e| >= 5 &&
            |e| == 5 + (e[1] as int) + 0x100 * (e[2] as int) + 0x1_0000 * (e[3] as int) + 0x100_0000 * (e[4] as int)))
  }

  ghost predicate AllPushes(parts: seq<Bytes>) {
    forall k :: 0 <= k < |parts| ==> PushElement(parts[k])
  }

  ghost predicate PushesOnly(s: Bytes) {
    exists parts :: AllPushes(parts) && Concat(parts) == s
  }

  // --- push-only scripts ---

  /** The element at position i, wherever its script ends. */
  lemma ElementAt(s: Bytes, i: nat, next: nat)
    requires i < next <= |s|
    ensures PushElement(s[i..next]) <==> IsPush(s[i]) && NextToken(s, i).Some? && NextToken(s, i).value.next == next
  {
    var e := s[i..next];
    assert e[0] == s[i];
    if i + 3 <= |s| {
      TwoBytes(s, i + 1);
    }
    if i + 5 <= |s| {
      FourBytes(s, i + 1);
    }
  }

  lemma TwoBytes(s: Bytes, i: nat)
    requires i + 2 <= |s|
    ensures LittleEndian(s, i, 2) == (s[i] as int) + 0x100 * (s[i + 1] as int)
  {
    assert LittleEndian(s, i + 1, 1) == s[i + 1];
  }

  lemma FourBytes(s: Bytes, i: nat)
    requires i + 4 <= |s|
    ensures LittleEndian(s, i, 4) 
            == (s[i] as int) + 0x100 * (s[i + 1] as int) + 0x1_0000 * (s[i + 2] as int) + 0x100_0000 * (s[i + 3] as int)
  {
    TwoBytes(s, i + 2);
    assert LittleEndian(s, i + 1, 3) == (s[i + 1] as int) + 0x100 * LittleEndian(s, i + 2, 2);
  }

  lemma {:induction false} PushesFound(s: Bytes, i: nat) returns (parts: seq<Bytes>)
    requires i <= |s| && PushOnly(s, i)
    ensures AllPushes(parts) && Concat(parts) == s[i..]
    decreases |s| - i
  {
    hide PushElement, NextToken, IsPush, PushOnly;
    if i == |s| {
      parts := [];
    } else {
      PushOnlyStep(s, i);
      var next := NextToken(s, i).value.next;
      NextInside(s, i);
      ElementAt(s, i, next);
      var rest := PushesFound(s, next);
      parts := [s[i..next]] + rest;
      assert s[i..] == s[i..next] + s[next..];
    }
  }

  lemma {:induction false} PushesAccepted(s: Bytes, i: nat, parts: seq<Bytes>)
    requires i <= |s| && AllPushes(parts) && Concat(parts) == s[i..]
    ensures PushOnly(s, i)
    decreases |parts|
  {
    hide NextToken, IsPush;
    if parts != [] {
      var next := i + |parts[0]|;
      assert PushElement(parts[0]);
      assert s[i..next] == s[i..][..|parts[0]|] == parts[0];
      assert s[next..] == s[i..][|parts[0]|..] == Concat(parts[1..]);
      ElementAt(s, i, next);
      PushesAccepted(s, next, parts[1..]);
      PushOnlyStep(s, i);
    }
  }

  lemma PushOnlyIff(s: Bytes)
    ensures PushOnly(s, 0) <==> PushesOnly(s)
  {
    hide AllPushes, PushOnly;
    assert s[0..] == s;
    if PushOnly(s, 0) {
      var parts := PushesFound(s, 0);
    }
    if PushesOnly(s) {
      var parts :| AllPushes(parts) && Concat(parts) == s;
      PushesAccepted(s, 0, parts);
    }
  }

  // --- bare multisig ---

  /** A compressed key of 33 bytes, or an uncompressed or hybrid one of 65. */
  ghost predicate KeyBytes(key: Bytes) {
    || (|key| == 33 && (key[0] == 0x02 || key[0] == 0x03))
    || (|key| == 65 && (key[0] == 0x04 || key[0] == 0x06 || key[0] == 0x07))
  }

  /** The key, pushed with its length in any of the four encodings. */
  ghost predicate KeyPush(e: Bytes, key: Bytes) {
    && KeyBytes(key)
    && (|| (|e| == 1 + |key| && e[0] == |key| && e[1..] == key)
        || (|e| == 2 + |key| && e[0] == 0x4c && e[1] == |key| && e[2..] == key)
        || (|e| == 3 + |key| && e[0] == 0x4d && e[1] == |key| && e[2] == 0 && e[3..] == key)
        || (|e| == 5 + |key| && e[0] == 0x4e && e[1] == |key| && e[2] == e[3] == e[4] == 0 && e[5..] == key))
  }

  ghost predicate KeyPushes(parts: seq<Bytes>, keys: seq<Bytes>) {
    |parts| == |keys| && forall k :: 0 <= k < |keys| ==> KeyPush(parts[k], keys[k])
  }

  /** 1 to 16 as one opcode, 17 to 20 as a push of one byte. */
  function NumberBytes(v: nat): Bytes
    requires 1 <= v <= 20
  {
    if v <= 16 then [0x50 + v] else [0x01, v]
  }

  /** m, the n keys, n, and 0xae. */
  ghost predicate MultisigBytes(s: Bytes, keys: seq<Bytes>, m: nat, n: nat) {
    && 1 <= m <= n <= 20 && |keys| == n
    && exists parts :: KeyPushes(parts, keys) && s == NumberBytes(m) + Concat(parts) + NumberBytes(n) + [0xae]
  }

  lemma KeyBytesIff(key: Bytes)
    ensures KeyBytes(key) <==> IsPubKey(key)
  {
  }

  lemma DataAt(s: Bytes, i: nat, next: nat, skip: nat)
    requires i < next <= |s| && skip <= next - i
    ensures s[i..next][skip..] == s[i + skip..next]
  {
  }

  lemma KeyElement(s: Bytes, i: nat, next: nat, key: Bytes)
    requires i < next <= |s|
    ensures KeyPush(s[i..next], key)
            <==> KeyBytes(key) && NextToken(s, i).Some? && NextToken(s, i).value.next == next && NextToken(s, i).value.token.data == key
  {
    hide LittleEndian;
    var e, op := s[i..next], s[i];
    assert e[0] == op;
    if i + 2 <= next {
      DataAt(s, i, next, 2);
      OneByte(s, i + 1);
    }
    if i + 3 <= next {
      DataAt(s, i, next, 3);
      TwoBytes(s, i + 1);
    }
    if i + 5 <= next {
      DataAt(s, i, next, 5);
      FourBytes(s, i + 1);
    }
    DataAt(s, i, next, 1);
  }

  lemma OneByte(s: Bytes, i: nat)
    requires i < |s|
    ensures LittleEndian(s, i, 1) == s[i] as int
  {
    assert LittleEndian(s, i + 1, 0) == 0;
  }

  lemma NumberFound(s: Bytes, i: nat, low: nat, high: nat)
    requires NextToken(s, i).Some? && ScriptNumber(NextToken(s, i).value.token, low, high).Some?
    ensures var v := ScriptNumber(NextToken(s, i).value.token, low, high).value;
            && 1 <= v <= 20 && i < NextToken(s, i).value.next <= |s|
            && s[i..NextToken(s, i).value.next] == NumberBytes(v)
  {
  }

  lemma Untokenized(s: Bytes, i: nat, toks: seq<Token>)
    requires i <= |s| && Tokenize(s, i) == Some(toks) && toks != []
    ensures i < |s| && NextToken(s, i).Some? && i < NextToken(s, i).value.next <= |s|
    ensures NextToken(s, i).value.token == toks[0] && Tokenize(s, NextToken(s, i).value.next) == Some(toks[1..])
  {
    hide NextToken;
    if i < |s| && NextToken(s, i).Some? {
      NextInside(s, i);
    }
  }

  lemma {:induction false} KeysFound(s: Bytes, i: nat, toks: seq<Token>, keys: seq<Bytes>, rest: seq<Token>)
    returns (parts: seq<Bytes>, j: nat)
    requires i <= |s| && Tokenize(s, i) == Some(toks + rest) && KeyTokens(toks, keys)
    ensures KeyPushes(parts, keys) && i <= j <= |s| && s[i..j] == Concat(parts) && Tokenize(s, j) == Some(rest)
    decreases |toks|
  {
    hide NextToken, KeyPush, IsPubKey;
    if toks == [] {
      parts, j := [], i;
      assert toks + rest == rest;
    } else {
      Untokenized(s, i, toks + rest);
      var next := NextToken(s, i).value.next;
      assert (toks + rest)[1..] == toks[1..] + rest && (toks + rest)[0] == toks[0];
      KeyBytesIff(keys[0]);
      KeyElement(s, i, next, keys[0]);
      var more: seq<Bytes>;
      more, j := KeysFound(s, next, toks[1..], keys[1..], rest);
      parts := [s[i..next]] + more;
      assert s[i..j] == s[i..next] + s[next..j];
    }
  }

  lemma MultisigFound(s: Bytes, ms: Multisig)
    requires MultisigOf(s) == Some(ms)
    ensures MultisigBytes(s, ms.keys, ms.m, ms.n)
  {
    hide NextToken, ScriptNumber, MultisigOf, Tokenize, NumberBytes, KeyPushes;
    MultisigSound(s, ms);
    var all := Tokenize(s, 0).value;
    Untokenized(s, 0, all);
    NumberFound(s, 0, 1, MAX_PUBKEYS);
    var i := NextToken(s, 0).value.next;
    var keyToks, rest := all[1..ms.n + 1], all[ms.n + 1..];
    assert all[1..] == keyToks + rest;
    var parts, j := KeysFound(s, i, keyToks, ms.keys, rest);
    Untokenized(s, j, rest);
    NumberFound(s, j, ms.m, MAX_PUBKEYS);
    var next := NextToken(s, j).value.next;
    assert rest[1..] == [Token(OP_CHECKMULTISIG, [])];
    LastToken(s, next);
    assert s == s[0..i] + s[i..j] + s[j..next] + [0xae];
  }

  lemma {:induction false} KeysTokenized(parts: seq<Bytes>, keys: seq<Bytes>, rest: Bytes) returns (toks: seq<Token>)
    requires KeyPushes(parts, keys) && Tokenize(rest, 0).Some?
    ensures KeyTokens(toks, keys) && Tokenize(Concat(parts) + rest, 0) == Some(toks + Tokenize(rest, 0).value)
    decreases |parts|
  {
    hide NextToken, Tokenize, IsPubKey, KeyBytes;
    if parts == [] {
      toks := [];
      assert Concat(parts) + rest == rest;
      assert [] + Tokenize(rest, 0).value == Tokenize(rest, 0).value;
    } else {
      var tail := Concat(parts[1..]) + rest;
      var s, next := parts[0] + tail, |parts[0]|;
      var more := KeysTokenized(parts[1..], keys[1..], rest);
      assert KeyPush(parts[0], keys[0]) && s[0..next] == parts[0];
      KeyBytesIff(keys[0]);
      KeyElement(s, 0, next, keys[0]);
      var tok := NextToken(s, 0).value.token;
      toks := [tok] + more;
      TokenInFront(parts[0], tail, tok);
      assert Concat(parts) + rest == s;
      assert [tok] + (more + Tokenize(rest, 0).value) == toks + Tokenize(rest, 0).value;
    }
  }

  lemma MultisigAccepted(s: Bytes, keys: seq<Bytes>, m: nat, n: nat)
    requires MultisigBytes(s, keys, m, n)
    ensures MultisigOf(s) == Some(Multisig(keys, m, n))
  {
    hide NextToken, Tokenize, KeyPushes, MultisigOf, ScriptNumber;
    var parts :| KeyPushes(parts, keys) && s == NumberBytes(m) + Concat(parts) + NumberBytes(n) + [0xae];
    var last := [OP_CHECKMULTISIG];
    LastToken(last, 0);
    var nTok := NumberToken(n, last, m, MAX_PUBKEYS);
    TokenInFront(NumberBytes(n), last, nTok);
    var tail := NumberBytes(n) + last;
    var keyToks := KeysTokenized(parts, keys, tail);
    var mTok := NumberToken(m, Concat(parts) + tail, 1, MAX_PUBKEYS);
    TokenInFront(NumberBytes(m), Concat(parts) + tail, mTok);
    assert s == NumberBytes(m) + (Concat(parts) + tail);
    var all := Tokenize(s, 0).value;
    assert all == [mTok] + (keyToks + ([nTok] + [Token(OP_CHECKMULTISIG, [])]));
    assert forall k :: 0 <= k < n ==> all[k + 1] == keyToks[k];
    MultisigComplete(s, Multisig(keys, m, n));
  }

  /** The parser accepts exactly the scripts that consist of these bytes. */
  lemma MultisigIff(s: Bytes)
    ensures forall keys, m, n :: MultisigOf(s) == Some(Multisig(keys, m, n)) <==> MultisigBytes(s, keys, m, n)
  {
    hide MultisigOf, MultisigBytes;
    forall keys, m, n
      ensures MultisigOf(s) == Some(Multisig(keys, m, n)) <==> MultisigBytes(s, keys, m, n)
    {
      if MultisigOf(s) == Some(Multisig(keys, m, n)) {
        MultisigFound(s, Multisig(keys, m, n));
      }
      if MultisigBytes(s, keys, m, n) {
        MultisigAccepted(s, keys, m, n);
      }
    }
  }
}
