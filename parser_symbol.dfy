/**
 * The symbol record of the modular parser (src/js/compiler/parser/symbol.js):
 * a token type with `nud`, `led` and `std` handlers and left and right binding
 * powers, the `with*` builders that set one field and return the symbol, and
 * `mergeWith`, the rule applied when a type is registered a second time.
 */
module ParserSymbol {
  import opened Wrappers
  import opened Tokens
  import opened Handlers

  /** A handler together with the right binding power it reads when it runs:
      the factories' closures read `rbp` from the symbol they were built on. */
  datatype Slot = Slot(handler: Handler, rbp: int)

  /** A symbol as the parser sees it once registered. */
  datatype SymbolRecord = SymbolRecord(
    kind: TokenKind, nud: Slot, led: Slot, std: Slot, lbp: int, rbp: int)

  predicate Implemented(s: Slot) {
    IsImplemented(s.handler)
  }

  /** Whether all three slots hold real handlers. */
  predicate FullyImplemented(s: SymbolRecord) {
    Implemented(s.nud) && Implemented(s.led) && Implemented(s.std)
  }

  /** `receiver.mergeWith(other)`. Without `other` the result behaves as the
      receiver. Otherwise it is layered over `other`: type and binding powers
      come from `other`, and each slot is `other`'s when implemented there and
      the receiver's when not. */
  function Merge(receiver: SymbolRecord, other: Option<SymbolRecord>): (r: SymbolRecord)
    ensures other.None? ==> r == receiver
    ensures other.Some? ==>
      r.kind == other.value.kind && r.lbp == other.value.lbp && r.rbp == other.value.rbp
    ensures other.Some? ==>
      (Implemented(r.nud) <==> Implemented(other.value.nud) || Implemented(receiver.nud))
      && (Implemented(r.led) <==> Implemented(other.value.led) || Implemented(receiver.led))
      && (Implemented(r.std) <==> Implemented(other.value.std) || Implemented(receiver.std))
  {
    match other
    case None => receiver
    case Some(o) =>
      o.(nud := if Implemented(o.nud) then o.nud else receiver.nud,
         led := if Implemented(o.led) then o.led else receiver.led,
         std := if Implemented(o.std) then o.std else receiver.std)
  }

  /** If `other` implements all three handlers, merging changes nothing of it. */
  lemma MergeIntoFullyImplemented(receiver: SymbolRecord, other: SymbolRecord)
    requires FullyImplemented(other)
    ensures Merge(receiver, Some(other)) == other
  {
  }

  /** An implemented slot of `other` survives the merge unchanged. */
  lemma MergeKeepsImplemented(receiver: SymbolRecord, other: SymbolRecord)
    ensures Implemented(other.nud) ==> Merge(receiver, Some(other)).nud == other.nud
    ensures Implemented(other.led) ==> Merge(receiver, Some(other)).led == other.led
    ensures Implemented(other.std) ==> Merge(receiver, Some(other)).std == other.std
    ensures !Implemented(other.nud) ==> Merge(receiver, Some(other)).nud == receiver.nud
    ensures !Implemented(other.led) ==> Merge(receiver, Some(other)).led == receiver.led
    ensures !Implemented(other.std) ==> Merge(receiver, Some(other)).std == receiver.std
  {
  }

  /** Registering the same symbol twice is the same as registering it once. */
  lemma MergeIdempotent(s: SymbolRecord)
    ensures Merge(s, Some(s)) == s
  {
  }

  /** The record the registry holds after the symbols `regs` (all of one type)
      have been registered in order, starting from nothing. */
  function Registered(regs: seq<SymbolRecord>): SymbolRecord
    requires |regs| > 0
  {
    if |regs| == 1 then Merge(regs[0], None)
    else Merge(regs[|regs| - 1], Some(Registered(regs[..|regs| - 1])))
  }

  /** Reference rule: the first implemented slot, or the last one if none is. */
  function FirstImplemented(slots: seq<Slot>): Slot
    requires |slots| > 0
  {
    if |slots| == 1 || Implemented(slots[0]) then slots[0] else FirstImplemented(slots[1..])
  }

  lemma {:induction false} FirstImplementedAppend(slots: seq<Slot>, s: Slot)
    requires |slots| > 0
    ensures FirstImplemented(slots + [s])
         == if Implemented(FirstImplemented(slots)) then FirstImplemented(slots) else s
  {
    if |slots| > 1 && !Implemented(slots[0]) {
      assert (slots + [s])[1..] == slots[1..] + [s];
      FirstImplementedAppend(slots[1..], s);
    }
  }

  lemma {:induction false} FirstImplementedIsImplemented(slots: seq<Slot>)
    requires |slots| > 0
    ensures Implemented(FirstImplemented(slots))
        <==> exists i :: 0 <= i < |slots| && Implemented(slots[i])
  {
    if |slots| > 1 && !Implemented(slots[0]) {
      FirstImplementedIsImplemented(slots[1..]);
      if exists i :: 0 <= i < |slots| && Implemented(slots[i]) {
        var i :| 0 <= i < |slots| && Implemented(slots[i]);
        assert slots[1..][i - 1] == slots[i];
      }
    }
  }

  function Nuds(regs: seq<SymbolRecord>): (r: seq<Slot>)
    ensures |r| == |regs| && forall i :: 0 <= i < |regs| ==> r[i] == regs[i].nud
  {
    seq(|regs|, i requires 0 <= i < |regs| => regs[i].nud)
  }

  function Leds(regs: seq<SymbolRecord>): (r: seq<Slot>)
    ensures |r| == |regs| && forall i :: 0 <= i < |regs| ==> r[i] == regs[i].led
  {
    seq(|regs|, i requires 0 <= i < |regs| => regs[i].led)
  }

  function Stds(regs: seq<SymbolRecord>): (r: seq<Slot>)
    ensures |r| == |regs| && forall i :: 0 <= i < |regs| ==> r[i] == regs[i].std
  {
    seq(|regs|, i requires 0 <= i < |regs| => regs[i].std)
  }

  /** The override rule over any number of registrations of one type: the
      earliest registration fixes the type and binding powers, and each slot
      holds the earliest implemented handler (a later registration only fills
      slots that are still empty). */
  lemma {:induction false} EarliestRegistrationWins(regs: seq<SymbolRecord>)
    requires |regs| > 0
    ensures Registered(regs).kind == regs[0].kind
    ensures Registered(regs).lbp == regs[0].lbp && Registered(regs).rbp == regs[0].rbp
    ensures Registered(regs).nud == FirstImplemented(Nuds(regs))
    ensures Registered(regs).led == FirstImplemented(Leds(regs))
    ensures Registered(regs).std == FirstImplemented(Stds(regs))
  {
    if |regs| > 1 {
      var init := regs[..|regs| - 1];
      var last := regs[|regs| - 1];
      EarliestRegistrationWins(init);
      assert Nuds(regs) == Nuds(init) + [last.nud];
      assert Leds(regs) == Leds(init) + [last.led];
      assert Stds(regs) == Stds(init) + [last.std];
      FirstImplementedAppend(Nuds(init), last.nud);
      FirstImplementedAppend(Leds(init), last.led);
      FirstImplementedAppend(Stds(init), last.std);
    }
  }

  class Symbol {
    var kind: TokenKind
    var nud: Handler
    var led: Handler
    var std: Handler
    var lbp: int
    var rbp: int

    /** `new Symbol(type)`: no handlers, both binding powers zero. */
    constructor (k: TokenKind)
      ensures kind == k && lbp == 0 && rbp == 0
      ensures nud == NotImplemented && led == NotImplemented && std == NotImplemented
    {
      kind := k;
      nud := NotImplemented;
      rbp := 0;
      lbp := 0;
      led := NotImplemented;
      std := NotImplemented;
    }

    /** What the symbol looks like to a parser that registers it now: each
        handler reads this symbol's current `rbp`. */
    function Record(): SymbolRecord
      reads this
    {
      SymbolRecord(kind, Slot(nud, rbp), Slot(led, rbp), Slot(std, rbp), lbp, rbp)
    }

    method WithNud(h: Handler) returns (self: Symbol)
      modifies this
      ensures self == this && nud == h
      ensures kind == old(kind) && led == old(led) && std == old(std)
      ensures lbp == old(lbp) && rbp == old(rbp)
    {
      nud := h;
      self := this;
    }

    method WithLbp(bp: int) returns (self: Symbol)
      modifies this
      ensures self == this && lbp == bp
      ensures kind == old(kind) && nud == old(nud) && led == old(led) && std == old(std)
      ensures rbp == old(rbp)
    {
      lbp := bp;
      self := this;
    }

    /** Also changes the binding power the symbol's own prefix or infix handler
        parses its operand at, since that handler reads `rbp` when it runs. */
    method WithRbp(bp: int) returns (self: Symbol)
      modifies this
      ensures self == this && rbp == bp
      ensures kind == old(kind) && nud == old(nud) && led == old(led) && std == old(std)
      ensures lbp == old(lbp)
      ensures Record().nud == Slot(nud, bp) && Record().led == Slot(led, bp)
    {
      rbp := bp;
      self := this;
    }

    method WithLed(h: Handler) returns (self: Symbol)
      modifies this
      ensures self == this && led == h
      ensures kind == old(kind) && nud == old(nud) && std == old(std)
      ensures lbp == old(lbp) && rbp == old(rbp)
    {
      led := h;
      self := this;
    }

    method WithStd(h: Handler) returns (self: Symbol)
      modifies this
      ensures self == this && std == h
      ensures kind == old(kind) && nud == old(nud) && led == old(led)
      ensures lbp == old(lbp) && rbp == old(rbp)
    {
      std := h;
      self := this;
    }

    /** `mergeWith(other)`: builds a new record and changes neither input. */
    function MergeWith(other: Option<SymbolRecord>): (r: SymbolRecord)
      reads this
      ensures other.None? ==> r == Record()
      ensures other.Some? && FullyImplemented(other.value) ==> r == other.value
    {
      Merge(Record(), other)
    }
  }
}
