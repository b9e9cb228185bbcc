/** What a wallet may change in a transaction it signs: the one-pass validator against the relation
    it decides. */
module WalletValidation {
  import opened Rust

  type Pubkey = nat

  datatype AccountMeta = AccountMeta(pubkey: Pubkey, isSigner: bool, isWritable: bool)

  datatype Instruction = Instruction(programId: Pubkey, keys: seq<AccountMeta>, data: seq<nat>)

  /** What the web3 library decodes compute-budget data to; decoding may throw. */
  datatype Budget = SetLimit(units: nat) | SetPrice(microLamports: nat) | OtherKind | Undecodable

  /** A transaction as the validator sees it: the serialized message is compared as a whole. */
  datatype Transaction = Transaction(
    feePayer: Option<Pubkey>, recentBlockhash: Option<nat>, instructions: seq<Instruction>, message: seq<nat>)

  datatype Config = Config(computeBudget: Pubkey, defaultKey: Pubkey, decode: seq<nat> -> Budget)

  const MAX_UNIT_LIMIT := 1_400_000
  const MAX_UNIT_PRICE := 1_000_000

  datatype Validation = Rejected | Unmodified | Modified(limit: Option<nat>, price: Option<nat>)

  predicate SameBytes(a: seq<nat>, b: seq<nat>) {
    |a| == |b| && forall i :: 0 <= i < |a| ==> a[i] == b[i]
  }

  /** Field by field comparison of two instructions. */
  predicate SameInstruction(a: Instruction, b: Instruction) {
    && a.programId == b.programId
    && SameBytes(a.data, b.data)
    && |a.keys| == |b.keys|
    && forall i :: 0 <= i < |a.keys| ==>
         a.keys[i].pubkey == b.keys[i].pubkey && a.keys[i].isSigner == b.keys[i].isSigner
             && a.keys[i].isWritable == b.keys[i].isWritable
  }

  lemma SameIsEqual(a: Instruction, b: Instruction)
    ensures SameInstruction(a, b) <==> a == b
  {
    if SameInstruction(a, b) {
      assert a.data == b.data && a.keys == b.keys;
    }
  }

  // ----- the relation

  /** The signed list is the expected list, in order, with the added instructions put in anywhere. */
  ghost predicate Interleaved(signed: seq<Instruction>, expected: seq<Instruction>, added: seq<Instruction>)
    decreases |signed|
  {
    if signed == [] then expected == [] && added == []
    else
      || (expected != [] && signed[0] == expected[0] && Interleaved(signed[1..], expected[1..], added))
      || (added != [] && signed[0] == added[0] && Interleaved(signed[1..], expected, added[1..]))
  }

  predicate IsBudget(i: Instruction, cfg: Config) {
    i.programId == cfg.computeBudget
  }

  ghost predicate AllBudget(added: seq<Instruction>, cfg: Config) {
    forall i :: i in added ==> IsBudget(i, cfg)
  }

  predicate InRange(i: Instruction, cfg: Config) {
    match cfg.decode(i.data)
    case SetLimit(units) => 1 <= units <= 1_400_000
    case SetPrice(price) => price <= 1_000_000
    case _ => false
  }

  /** One or two account-free compute-budget instructions, each in range, no two of one kind. */
  ghost predicate AllowedAdditions(added: seq<Instruction>, cfg: Config) {
    && 1 <= |added| <= 2
    && (forall i :: i in added ==> IsBudget(i, cfg) && i.keys == [] && InRange(i, cfg))
    && (|added| == 2 ==> cfg.decode(added[0].data).SetLimit? != cfg.decode(added[1].data).SetLimit?)
  }

  // ----- the greedy match

  /** The instructions left over by the greedy match; `None` when it rejects. */
  function Greedy(signed: seq<Instruction>, expected: seq<Instruction>, cfg: Config): Option<seq<Instruction>> {
    if signed == [] then if expected == [] then Some([]) else None
    else if expected != [] && signed[0] == expected[0] then Greedy(signed[1..], expected[1..], cfg)
    else if !IsBudget(signed[0], cfg) then None
    else
      match Greedy(signed[1..], expected, cfg)
      case None => None
      case Some(rest) => Some([signed[0]] + rest)
  }

  lemma {:induction false} GreedySound(signed: seq<Instruction>, expected: seq<Instruction>, cfg: Config)
    requires Greedy(signed, expected, cfg).Some?
    ensures Interleaved(signed, expected, Greedy(signed, expected, cfg).value)
    ensures AllBudget(Greedy(signed, expected, cfg).value, cfg)
  {
    if signed != [] {
      if expected != [] && signed[0] == expected[0] {
        GreedySound(signed[1..], expected[1..], cfg);
      } else {
        GreedySound(signed[1..], expected, cfg);
        var rest := Greedy(signed[1..], expected, cfg).value;
        assert ([signed[0]] + rest)[1..] == rest;
      }
    }
  }

  /** The first expected instruction can be freed: whatever position it was matched at, the list is
      also an interleaving without it, with it among the additions. */
  lemma {:induction false} FreeFirst(signed: seq<Instruction>, expected: seq<Instruction>, added: seq<Instruction>)
    returns (added': seq<Instruction>)
    requires expected != [] && Interleaved(signed, expected, added)
    ensures Interleaved(signed, expected[1..], added')
    ensures multiset(added') == multiset(added) + multiset{expected[0]}
    decreases |signed|
  {
    if signed[0] == expected[0] && Interleaved(signed[1..], expected[1..], added) {
      added' := [expected[0]] + added;
      assert added'[1..] == added;
    } else {
      var rest := FreeFirst(signed[1..], expected, added[1..]);
      added' := [added[0]] + rest;
      assert added'[1..] == rest;
      assert added == [added[0]] + added[1..];
    }
  }

  /** Whenever the signed list is some interleaving with compute-budget additions, the greedy match
      accepts it, and what it leaves over is a rearrangement of those additions. */
  lemma {:induction false} GreedyComplete(
    signed: seq<Instruction>, expected: seq<Instruction>, added: seq<Instruction>, cfg: Config)
    requires Interleaved(signed, expected, added) && AllBudget(added, cfg)
    ensures Greedy(signed, expected, cfg).Some?
    ensures multiset(Greedy(signed, expected, cfg).value) == multiset(added)
    decreases |signed|
  {
    if signed != [] {
      if expected != [] && signed[0] == expected[0] {
        if Interleaved(signed[1..], expected[1..], added) {
          GreedyComplete(signed[1..], expected[1..], added, cfg);
        } else {
          assert added == [added[0]] + added[1..];
          var freed := FreeFirst(signed[1..], expected, added[1..]);
          assert multiset(freed) == multiset(added);
          BudgetByMultiset(freed, added, cfg);
          GreedyComplete(signed[1..], expected[1..], freed, cfg);
        }
      } else {
        assert added == [added[0]] + added[1..];
        assert added[0] in added;
        GreedyComplete(signed[1..], expected, added[1..], cfg);
      }
    }
  }

  lemma BudgetByMultiset(a: seq<Instruction>, b: seq<Instruction>, cfg: Config)
    requires multiset(a) == multiset(b) && AllBudget(b, cfg)
    ensures AllBudget(a, cfg)
  {
    forall i | i in a
      ensures IsBudget(i, cfg)
    {
      assert i in multiset(a);
      assert i in b;
    }
  }

  /** What is allowed does not depend on the order of the additions. */
  lemma AllowedByMultiset(a: seq<Instruction>, b: seq<Instruction>, cfg: Config)
    requires multiset(a) == multiset(b) && AllowedAdditions(b, cfg)
    ensures AllowedAdditions(a, cfg)
  {
    assert |a| == |multiset(a)| == |multiset(b)| == |b|;
    forall i | i in a
      ensures i in b
    {
      assert i in multiset(a);
    }
    if |a| == 2 {
      assert a == [a[0], a[1]] && b == [b[0], b[1]];
      assert multiset{a[0], a[1]} == multiset{b[0], b[1]};
      assert a[0] == b[0] || a[0] == b[1];
      if a[0] == b[0] {
        assert multiset{a[0], a[1]} - multiset{a[0]} == multiset{b[0], b[1]} - multiset{a[0]};
        assert a[1] in multiset{a[1]} && multiset{a[1]} == multiset{b[1]};
      } else {
        assert multiset{a[0], a[1]} - multiset{a[0]} == multiset{b[0], b[1]} - multiset{a[0]};
        assert a[1] in multiset{a[1]} && multiset{a[1]} == multiset{b[0]};
      }
    }
  }

  // ----- the validator

  method ValidateWalletSignedTransaction(
    expected: Transaction, signed: Transaction, additionalSigners: nat, cfg: Config)
    returns (r: Validation)
    ensures r == Unmodified <==>
              && HeaderKept(expected, signed, cfg)
              && SameBytes(expected.message, signed.message)
    ensures r.Modified? <==>
              && HeaderKept(expected, signed, cfg)
              && !SameBytes(expected.message, signed.message) && additionalSigners == 0
              && Greedy(signed.instructions, expected.instructions, cfg).Some?
              && AllowedAdditions(Greedy(signed.instructions, expected.instructions, cfg).value, cfg)
    ensures r.Modified? ==> Reports(r, Greedy(signed.instructions, expected.instructions, cfg).value, cfg)
  {
    if expected.feePayer == None
        || expected.feePayer.value != (if signed.feePayer.Some? then signed.feePayer.value else cfg.defaultKey) {
      return Rejected;
    }
    if expected.recentBlockhash != signed.recentBlockhash {
      return Rejected;
    }
    if SameBytes(expected.message, signed.message) {
      return Unmodified;
    }
    if additionalSigners > 0 {
      return Rejected;
    }
    var matched := MatchInstructions(signed.instructions, expected.instructions, cfg);
    if matched.None? {
      return Rejected;
    }
    GreedySound(signed.instructions, expected.instructions, cfg);
    r := CheckAdditions(matched.value, cfg);
  }

  predicate HeaderKept(expected: Transaction, signed: Transaction, cfg: Config) {
    && expected.feePayer == Some(if signed.feePayer.Some? then signed.feePayer.value else cfg.defaultKey)
    && expected.recentBlockhash == signed.recentBlockhash
  }

  /** The accepted result carries the values of the additions. */
  ghost predicate Reports(r: Validation, added: seq<Instruction>, cfg: Config)
    requires r.Modified?
  {
    && (forall n: nat :: r.limit == Some(n) <==> exists i :: i in added && cfg.decode(i.data) == SetLimit(n))
    && (forall n: nat :: r.price == Some(n) <==> exists i :: i in added && cfg.decode(i.data) == SetPrice(n))
  }

  /** The first loop: an index into the expected list and a growing list of the others. */
  method MatchInstructions(
    signed: seq<Instruction>, expected: seq<Instruction>, cfg: Config) returns (r: Option<seq<Instruction>>)
    ensures r == Greedy(signed, expected, cfg)
  {
    var compute: seq<Instruction> := [];
    var expectedIndex := 0;
    ghost var answer := Greedy(signed, expected, cfg);
    assert signed[0..] == signed && expected[0..] == expected;
    assert answer.Some? ==> answer.value == [] + answer.value;
    for k := 0 to |signed|
      invariant expectedIndex <= |expected|
      invariant answer == Prepend(compute, Greedy(signed[k..], expected[expectedIndex..], cfg))
    {
      var instruction := signed[k];
      assert signed[k..][1..] == signed[k + 1..];
      if expectedIndex < |expected| {
        SameIsEqual(instruction, expected[expectedIndex]);
        assert expected[expectedIndex..][1..] == expected[expectedIndex + 1..];
        if SameInstruction(instruction, expected[expectedIndex]) {
          expectedIndex := expectedIndex + 1;
          continue;
        }
      }
      if instruction.programId != cfg.computeBudget {
        return None;
      }
      PrependOne(compute, instruction, Greedy(signed[k + 1..], expected[expectedIndex..], cfg));
      compute := compute + [instruction];
    }
    assert compute + [] == compute;
    if expectedIndex != |expected| {
      return None;
    }
    return Some(compute);
  }

  function Prepend(front: seq<Instruction>, rest: Option<seq<Instruction>>): Option<seq<Instruction>> {
    match rest
    case None => None
    case Some(tail) => Some(front + tail)
  }

  lemma PrependOne(front: seq<Instruction>, i: Instruction, rest: Option<seq<Instruction>>)
    ensures Prepend(front + [i], rest) == Prepend(front, Prepend([i], rest))
  {
    if rest.Some? {
      assert front + [i] + rest.value == front + ([i] + rest.value);
    }
  }

  /** What the second loop knows of the first k additions. */
  ghost predicate Scanned(added: seq<Instruction>, k: nat, limit: Option<nat>, price: Option<nat>, cfg: Config)
    requires k <= |added|
  {
    && (forall j :: 0 <= j < k ==> added[j].keys == [] && InRange(added[j], cfg))
    && (forall n: nat :: limit == Some(n) <==> exists j :: 0 <= j < k && cfg.decode(added[j].data) == SetLimit(n))
    && (forall n: nat :: price == Some(n) <==> exists j :: 0 <= j < k && cfg.decode(added[j].data) == SetPrice(n))
    && (k == 2 ==> cfg.decode(added[0].data).SetLimit? != cfg.decode(added[1].data).SetLimit?)
  }

  /** One more addition either spoils the list for good or joins what was scanned. */
  lemma ScanNext(added: seq<Instruction>, k: nat, limit: Option<nat>, price: Option<nat>, cfg: Config)
    requires k < |added| <= 2 && Scanned(added, k, limit, price, cfg)
    ensures added[k].keys != [] || !InRange(added[k], cfg) ==> !AllowedAdditions(added, cfg)
    ensures match cfg.decode(added[k].data)
            case SetLimit(units) =>
              if limit.Some? then !AllowedAdditions(added, cfg)
              else added[k].keys == [] && InRange(added[k], cfg) ==> Scanned(added, k + 1, Some(units), price, cfg)
            case SetPrice(microLamports) =>
              if price.Some? then !AllowedAdditions(added, cfg)
              else added[k].keys == [] && InRange(added[k], cfg) ==>
                  Scanned(added, k + 1, limit, Some(microLamports), cfg)
            case _ => true
  {
    assert added[k] in added;
    if k == 1 && limit.Some? {
      assert cfg.decode(added[0].data) == SetLimit(limit.value);
    }
    if k == 1 && price.Some? {
      assert cfg.decode(added[0].data) == SetPrice(price.value);
    }
  }

  lemma ScanDone(added: seq<Instruction>, limit: Option<nat>, price: Option<nat>, cfg: Config)
    requires 1 <= |added| <= 2 && AllBudget(added, cfg) && Scanned(added, |added|, limit, price, cfg)
    ensures AllowedAdditions(added, cfg) && Reports(Modified(limit, price), added, cfg)
  {
    assert forall j :: 0 <= j < |added| ==> added[j] in added;
  }

  /** The second loop: at most one limit and one price, each in range. */
  method CheckAdditions(added: seq<Instruction>, cfg: Config) returns (r: Validation)
    requires AllBudget(added, cfg)
    ensures r.Modified? <==> AllowedAdditions(added, cfg)
    ensures r.Modified? ==> Reports(r, added, cfg)
    ensures r != Unmodified
  {
    hide Scanned, Reports, AllBudget;
    if |added| == 0 || |added| > 2 {
      return Rejected;
    }
    var limit: Option<nat> := None;
    var price: Option<nat> := None;
    ScanNone(added, cfg);
    for k := 0 to |added|
      invariant Scanned(added, k, limit, price, cfg)
    {
      var instruction := added[k];
      ScanNext(added, k, limit, price, cfg);
      if |instruction.keys| != 0 {
        return Rejected;
      }
      match cfg.decode(instruction.data) {
        case SetLimit(units) =>
          if limit.Some? {
            return Rejected;
          }
          limit := Some(units);
          if units < 1 || units > MAX_UNIT_LIMIT {
            return Rejected;
          }
        case SetPrice(microLamports) =>
          if price.Some? {
            return Rejected;
          }
          price := Some(microLamports);
          if microLamports > MAX_UNIT_PRICE {
            return Rejected;
          }
        case _ =>
          return Rejected;
      }
    }
    ScanDone(added, limit, price, cfg);
    r := Modified(limit, price);
  }

  lemma ScanNone(added: seq<Instruction>, cfg: Config)
    ensures Scanned(added, 0, None, None, cfg)
  {
  }

  /** The validator is sound and complete: the match accepts exactly when the signed instructions
      are the expected ones interleaved with allowed additions, wherever they were put and even if
      the expected list already contains compute-budget instructions. */
  lemma AcceptsExactlyInterleavings(signed: seq<Instruction>, expected: seq<Instruction>, cfg: Config)
    ensures (Greedy(signed, expected, cfg).Some? && AllowedAdditions(Greedy(signed, expected, cfg).value, cfg))
        <==> exists added :: Interleaved(signed, expected, added) && AllowedAdditions(added, cfg)
  {
    if Greedy(signed, expected, cfg).Some? {
      GreedySound(signed, expected, cfg);
    }
    if added :| Interleaved(signed, expected, added) && AllowedAdditions(added, cfg) {
      GreedyComplete(signed, expected, added, cfg);
      AllowedByMultiset(Greedy(signed, expected, cfg).value, added, cfg);
    }
  }
}
