/** internal/script/classify.go and witness_program.go: which kind of output a script is.
    Witness programs follow BIP 141, section "Witness program". */
module Classify {
  import opened Wrappers
  import opened Script
  import opened Legacy
  import opened ScriptForms

  datatype WitnessProgram = WitnessProgram(version: nat, program: Bytes)

  /** One version opcode and one direct push of 2 to 40 bytes, nothing else. */
  function ParseWitnessProgram(s: Bytes): (r: Option<WitnessProgram>)
    ensures r.Some? ==> r.value.version <= 16 && 2 <= |r.value.program| <= 40
    ensures r.Some? ==> s == WitnessScript(r.value)
  {
    if |s| < 4 || |s| > 42 then None
    else if s[0] != OP_FALSE && !(OP_1 <= s[0] <= OP_16) then None
    else
      var version: int := if s[0] == OP_FALSE then 0 else (s[0] as int) - OP_1 + 1;
      var pushLen: int := s[1];
      if pushLen < 2 || pushLen > 40 then None
      else if |s| != 2 + pushLen then None
      else
        assert s == [s[0], s[1]] + s[2..];
        Some(WitnessProgram(version, s[2..]))
  }

  function WitnessScript(wp: WitnessProgram): Bytes
    requires wp.version <= 16 && |wp.program| <= 40
  {
    [if wp.version == 0 then OP_FALSE else 0x50 + wp.version, |wp.program|] + wp.program
  }

  /** Every program of a legal version and length is recognized, unchanged. */
  lemma WitnessRoundTrip(wp: WitnessProgram)
    requires wp.version <= 16 && 2 <= |wp.program| <= 40
    ensures ParseWitnessProgram(WitnessScript(wp)) == Some(wp)
  {
    assert WitnessScript(wp)[2..] == wp.program;
  }

  datatype Kind =
    | P2PK | P2PKH | P2SH | P2WPKH | P2WSH | P2TR | P2QPK | NullData | BareMultisig | UnknownWitness | Unknown

  datatype Classification = Classification(kind: Kind, program: Option<WitnessProgram>, keys: seq<Bytes>, m: nat, n: nat)

  function Plain(kind: Kind): Classification {
    Classification(kind, None, [], 0, 0)
  }

  function WitnessKind(wp: WitnessProgram): Kind {
    if wp.version == 0 && |wp.program| == 20 then P2WPKH
    else if wp.version == 0 && |wp.program| == 32 then P2WSH
    else if wp.version == 1 && |wp.program| == 32 then P2TR
    else if wp.version == 2 && |wp.program| == 32 then P2QPK
    else if wp.version == 0 then Unknown
    else UnknownWitness
  }

  // --- the six matchers ---

  datatype Matcher = Witness | KeyHash | ScriptHash | Key | Data | Keys

  ghost predicate Accepts(k: Matcher, s: Bytes) {
    match k
    case Witness => ParseWitnessProgram(s).Some?
    case KeyHash => MatchP2PKH(s).Some?
    case ScriptHash => MatchP2SH(s).Some?
    case Key => MatchP2PK(s).Some?
    case Data => MatchesNullData(s)
    case Keys => MultisigOf(s).Some?
  }

  /** What each matcher alone says the script is. */
  ghost function Verdict(k: Matcher, s: Bytes): Classification
    requires Accepts(k, s)
  {
    match k
    case Witness =>
      var wp := ParseWitnessProgram(s).value;
      Classification(WitnessKind(wp), Some(wp), [], 0, 0)
    case KeyHash => Plain(P2PKH)
    case ScriptHash => Plain(P2SH)
    case Key => Classification(P2PK, None, [MatchP2PK(s).value], 0, 0)
    case Data => Plain(NullData)
    case Keys =>
      var ms := MultisigOf(s).value;
      Classification(BareMultisig, None, ms.keys, ms.m, ms.n)
  }

  /** A multisig script opens with a number and then a key push. */
  lemma MultisigOpens(s: Bytes)
    requires MultisigOf(s).Some?
    ensures |s| >= 3 && (OP_1 <= s[0] <= OP_16 || s[0] == 0x01) && s[|s| - 1] == OP_CHECKMULTISIG
    ensures OP_1 <= s[0] <= OP_16 ==> NextToken(s, 1).Some? && IsPubKey(NextToken(s, 1).value.token.data) && NextToken(s, 1).value.next < |s|
  {
    var first := NextToken(s, 0).value;
    var split := SplitKeys(s, first.next).value;
    if OP_1 <= s[0] <= OP_16 {
      assert first.next == 1;
      SplitInside(s, 1);
    }
  }

  lemma SplitInside(s: Bytes, i: nat)
    requires i <= |s| && SplitKeys(s, i).Some? && |SplitKeys(s, i).value.keys| > 0
    ensures NextToken(s, i).Some? && IsPubKey(NextToken(s, i).value.token.data)
    ensures NextToken(s, i).value.next < SplitKeys(s, i).value.next
  {
  }

  lemma WitnessIsNoMultisig(s: Bytes)
    requires ParseWitnessProgram(s).Some?
    ensures MultisigOf(s).None?
  {
    if MultisigOf(s).Some? {
      MultisigOpens(s);
    }
  }

  /** At most one matcher accepts any byte string. */
  lemma MatchersExclusive(j: Matcher, k: Matcher, s: Bytes)
    requires Accepts(j, s) && Accepts(k, s)
    ensures j == k
  {
    hide MultisigOf;
    if ParseWitnessProgram(s).Some? {
      WitnessIsNoMultisig(s);
    } else if MultisigOf(s).Some? {
      MultisigOpens(s);
    }
  }

  // --- what each kind looks like ---

  /** Version opcode, length byte, and as many bytes of program. */
  ghost predicate WitnessBytes(s: Bytes) {
    4 <= |s| <= 42 && (s[0] == 0x00 || 0x51 <= s[0] <= 0x60) && s[1] as int == |s| - 2
  }

  /** The kinds byte by byte. */
  ghost predicate Looks(kind: Kind, s: Bytes) {
    match kind
    case P2WPKH => |s| == 22 && s[0] == 0x00 && s[1] == 0x14
    case P2WSH => |s| == 34 && s[0] == 0x00 && s[1] == 0x20
    case P2TR => |s| == 34 && s[0] == 0x51 && s[1] == 0x20
    case P2QPK => |s| == 34 && s[0] == 0x52 && s[1] == 0x20
    case UnknownWitness => WitnessBytes(s) && s[0] != 0x00 && !(|s| == 34 && (s[0] == 0x51 || s[0] == 0x52))
    case P2PKH => |s| == 25 && s[0] == 0x76 && s[1] == 0xa9 && s[2] == 0x14 && s[23] == 0x88 && s[24] == 0xac
    case P2SH => |s| == 23 && s[0] == 0xa9 && s[1] == 0x14 && s[22] == 0x87
    case P2PK =>
      || (|s| == 35 && s[0] == 0x21 && (s[1] == 0x02 || s[1] == 0x03) && s[34] == 0xac)
      || (|s| == 67 && s[0] == 0x41 && (s[1] == 0x04 || s[1] == 0x06 || s[1] == 0x07) && s[66] == 0xac)
    case NullData => |s| > 0 && s[0] == 0x6a && PushesOnly(s[1..])
    case BareMultisig => exists keys, m, n :: MultisigBytes(s, keys, m, n)
    case Unknown => false
  }

  /** What the result says about the script: its kind, its witness program, its keys. */
  ghost predicate SaidOf(c: Classification, s: Bytes) {
    && (forall k: Kind :: k != Unknown ==> (c.kind == k <==> Looks(k, s)))
    && (c.program.Some? <==> WitnessBytes(s))
    && (c.program.Some? ==> c.program.value == WitnessProgram(if s[0] == 0x00 then 0 else s[0] as int - 0x50, s[2..]))
    && (c.kind == P2PK ==> |s| > 2 && c.keys == [s[1..|s| - 1]])
    && (c.kind == BareMultisig ==> MultisigBytes(s, c.keys, c.m, c.n))
    && (c.kind != P2PK && c.kind != BareMultisig ==> c.keys == [])
    && (c.kind != BareMultisig ==> c.m == 0 && c.n == 0)
  }

  lemma WitnessLooks(s: Bytes)
    ensures Accepts(Witness, s) <==> WitnessBytes(s)
    ensures Accepts(Witness, s) ==>
              && var c := Verdict(Witness, s);
              && c.program.Some? && c.keys == []
              && c.program.value == WitnessProgram(if s[0] == 0x00 then 0 else s[0] as int - 0x50, s[2..])
              && (c.kind == P2WPKH <==> Looks(P2WPKH, s)) && (c.kind == P2WSH <==> Looks(P2WSH, s))
              && (c.kind == P2TR <==> Looks(P2TR, s)) && (c.kind == P2QPK <==> Looks(P2QPK, s))
              && (c.kind == UnknownWitness <==> Looks(UnknownWitness, s))
              && (c.kind.P2WPKH? || c.kind.P2WSH? || c.kind.P2TR? || c.kind.P2QPK? || c.kind.UnknownWitness? || c.kind.Unknown?)
    ensures Looks(P2WPKH, s) || Looks(P2WSH, s) || Looks(P2TR, s) || Looks(P2QPK, s) || Looks(UnknownWitness, s) ==> WitnessBytes(s)
  {
  }

  lemma KeyLooks(s: Bytes)
    ensures Accepts(KeyHash, s) <==> Looks(P2PKH, s)
    ensures Accepts(ScriptHash, s) <==> Looks(P2SH, s)
    ensures Accepts(Key, s) <==> Looks(P2PK, s)
    ensures Accepts(Key, s) ==> |s| > 2 && Verdict(Key, s).keys == [s[1..|s| - 1]]
  {
    if |s| > 2 {
      assert s[1..|s| - 1][0] == s[1];
    }
  }

  lemma DataLooks(s: Bytes)
    ensures Accepts(Data, s) <==> Looks(NullData, s)
  {
    hide PushOnly, PushesOnly;
    if |s| > 0 {
      PushOnlyIff(s[1..]);
    }
  }

  lemma MultisigLooks(s: Bytes)
    ensures Accepts(Keys, s) <==> Looks(BareMultisig, s)
    ensures Accepts(Keys, s) ==> var c := Verdict(Keys, s); MultisigBytes(s, c.keys, c.m, c.n)
  {
    hide MultisigOf, MultisigBytes;
    MultisigIff(s);
    if MultisigOf(s).Some? {
      var ms := MultisigOf(s).value;
      assert ms == Multisig(ms.keys, ms.m, ms.n);
    }
  }

  /** The matchers' verdicts, whichever accepts, say what the bytes say. */
  lemma VerdictSaid(s: Bytes, c: Classification)
    requires forall k :: Accepts(k, s) ==> c == Verdict(k, s)
    requires (forall k :: !Accepts(k, s)) ==> c == Plain(Unknown)
    ensures SaidOf(c, s)
  {
    hide Looks, WitnessBytes, MultisigBytes, ParseWitnessProgram, MatchP2PKH, MatchP2SH, MatchP2PK, MatchesNullData, MultisigOf, WitnessKind;
    WitnessLooks(s);
    KeyLooks(s);
    DataLooks(s);
    MultisigLooks(s);
    forall j, k | Accepts(j, s) && Accepts(k, s)
      ensures j == k
    {
      MatchersExclusive(j, k, s);
    }
    forall k: Kind | k != Unknown
      ensures c.kind == k <==> Looks(k, s)
    {
    }
  }

  /** matchNullData with its push-only loop. */
  method MatchNullData(s: Bytes) returns (ok: bool)
    ensures ok <==> MatchesNullData(s)
  {
    if |s| == 0 || s[0] != OP_RETURN {
      return false;
    }
    ok := IsPushOnly(s[1..]);
  }

  /** Classify tries the matchers in one fixed order. Because they exclude each other the
      order cannot matter: whichever accepts decides, and if none does the kind is unknown.
      Either way the result says exactly what the bytes are. */
  method Classify(s: Bytes) returns (c: Classification)
    ensures forall k :: Accepts(k, s) ==> c == Verdict(k, s)
    ensures (forall k :: !Accepts(k, s)) ==> c == Plain(Unknown)
    ensures SaidOf(c, s)
  {
    hide MultisigOf, ParseWitnessProgram, MatchP2PKH, MatchP2SH, MatchP2PK, MatchesNullData, WitnessKind, SaidOf;
    forall j, k | Accepts(j, s) && Accepts(k, s)
      ensures j == k
    {
      MatchersExclusive(j, k, s);
    }
    forall d | (forall k :: Accepts(k, s) ==> d == Verdict(k, s)) && ((forall k :: !Accepts(k, s)) ==> d == Plain(Unknown))
      ensures SaidOf(d, s)
    {
      VerdictSaid(s, d);
    }
    var wp := ParseWitnessProgram(s);
    if wp.Some? {
      assert Accepts(Witness, s);
      return Classification(WitnessKind(wp.value), wp, [], 0, 0);
    }
    var keyHash := MatchP2PKH(s);
    if keyHash.Some? {
      assert Accepts(KeyHash, s);
      return Plain(P2PKH);
    }
    var scriptHash := MatchP2SH(s);
    if scriptHash.Some? {
      assert Accepts(ScriptHash, s);
      return Plain(P2SH);
    }
    var key := MatchP2PK(s);
    if key.Some? {
      assert Accepts(Key, s);
      return Classification(P2PK, None, [key.value], 0, 0);
    }
    var data := MatchNullData(s);
    if data {
      assert Accepts(Data, s);
      return Plain(NullData);
    }
    var keys := MatchMultisig(s);
    if keys.Some? {
      assert Accepts(Keys, s);
      return Classification(BareMultisig, None, keys.value.keys, keys.value.m, keys.value.n);
    }
    forall k
      ensures !Accepts(k, s)
    {
    }
    return Plain(Unknown);
  }

  /** P2QPK is exactly witness version 2 with a 32-byte program, and a nulldata script is
      always excluded from the coin set. */
  lemma KindsMean(s: Bytes)
    ensures Accepts(Witness, s) ==>
              (Verdict(Witness, s).kind == P2QPK <==> |s| == 34 && s[0] == 0x52 && s[1] == 32)
    ensures Accepts(Data, s) ==> IsUnspendable(s)
  {
  }
}
