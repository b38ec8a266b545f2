// The validation gate of internal/normalize/normalize.go. Text is ASCII: upper-casing
// and trimming leave every other character alone.
module Normalize {
  import opened Common
  import opened Model
  import opened Projection

  datatype Response = Response(
    classification: string, entityKey: string, canonicalState: string, eventTime: string,
    amountMinor: Option<int>, currency: string, vendorStateText: string, confidence: real)

  datatype GateError = UnknownState(class_: Class) | MissingKey(class_: Class) | UnknownClass

  // ---------- text ----------

  predicate IsSpace(c: char) {
    c == ' ' || '\t' <= c <= '\r'
  }

  function Upper(c: char): char {
    if 'a' <= c <= 'z' then c - 'a' + 'A' else c
  }

  function ToUpper(s: string): string {
    seq(|s|, i requires 0 <= i < |s| => Upper(s[i]))
  }

  function TrimLeft(s: string): string {
    if s != "" && IsSpace(s[0]) then TrimLeft(s[1..]) else s
  }

  function TrimRight(s: string): string {
    if s != "" && IsSpace(Last(s)) then TrimRight(Most(s)) else s
  }

  function TrimSpace(s: string): string {
    TrimRight(TrimLeft(s))
  }

  function CanonicalKey(s: string): string {
    ToUpper(TrimSpace(s))
  }

  // ---------- spelling, apart from the functions above ----------

  const LOWER := "abcdefghijklmnopqrstuvwxyz"
  const UPPER := "ABCDEFGHIJKLMNOPQRSTUVWXYZ"
  const BLANKS := " \t\n\U{000B}\U{000C}\r"

  /** The same character, or the two cases of one letter. */
  predicate SameLetter(a: char, b: char) {
    a == b || exists i :: 0 <= i < 26 && ((a == LOWER[i] && b == UPPER[i]) || (a == UPPER[i] && b == LOWER[i]))
  }

  predicate SameSpelling(a: string, b: string) {
    |a| == |b| && forall i :: 0 <= i < |a| ==> SameLetter(a[i], b[i])
  }

  predicate Blank(s: string) {
    forall i :: 0 <= i < |s| ==> s[i] in BLANKS
  }

  /** `q` is `text` up to the case of its letters and padding around it. */
  ghost predicate VariantOf(q: string, text: string) {
    exists pre, body, post :: Blank(pre) && Blank(post) && q == pre + body + post && SameSpelling(body, text)
  }

  /** `text` is `q` without the blanks around it. */
  ghost predicate TrimOf(q: string, text: string) {
    && (text == "" || (text[0] !in BLANKS && Last(text) !in BLANKS))
    && exists pre, post :: Blank(pre) && Blank(post) && q == pre + text + post
  }

  lemma LettersInOrder(i: nat)
    requires i < 26
    ensures LOWER[i] as int == 'a' as int + i && UPPER[i] as int == 'A' as int + i
  {
  }

  lemma SpacesAreBlanks(c: char)
    ensures IsSpace(c) <==> c in BLANKS
  {
  }

  lemma SameLetterIsSameUpper(a: char, b: char)
    ensures SameLetter(a, b) <==> Upper(a) == Upper(b)
  {
    if a != b && Upper(a) == Upper(b) {
      var i := Upper(a) as int - 'A' as int;
      LettersInOrder(i);
    }
    if i :| 0 <= i < 26 && ((a == LOWER[i] && b == UPPER[i]) || (a == UPPER[i] && b == LOWER[i])) {
      LettersInOrder(i);
    }
  }

  lemma SameSpellingIsSameUpper(a: string, b: string)
    ensures SameSpelling(a, b) <==> ToUpper(a) == ToUpper(b)
  {
    forall i | 0 <= i < |a| && i < |b| ensures SameLetter(a[i], b[i]) <==> Upper(a[i]) == Upper(b[i]) {
      SameLetterIsSameUpper(a[i], b[i]);
    }
    if ToUpper(a) == ToUpper(b) {
      assert |a| == |b|;
      forall i | 0 <= i < |a| ensures Upper(a[i]) == Upper(b[i]) {
        assert ToUpper(a)[i] == ToUpper(b)[i];
      }
    }
  }

  // ---------- names ----------

  function StateName(s: State): string {
    match s
    case PickedUp => "PICKED_UP"
    case InTransit => "IN_TRANSIT"
    case OutForDelivery => "OUT_FOR_DELIVERY"
    case Delivered => "DELIVERED"
    case Issued => "ISSUED"
    case Paid => "PAID"
    case Voided => "VOIDED"
    case Refunded => "REFUNDED"
  }

  function ClassName(c: Class): string {
    match c
    case Shipment => "SHIPMENT"
    case Invoice => "INVOICE"
    case Unclassified => "UNCLASSIFIED"
  }

  function StateNamed(name: string): Option<State> {
    if name == "PICKED_UP" then Some(PickedUp)
    else if name == "IN_TRANSIT" then Some(InTransit)
    else if name == "OUT_FOR_DELIVERY" then Some(OutForDelivery)
    else if name == "DELIVERED" then Some(Delivered)
    else if name == "ISSUED" then Some(Issued)
    else if name == "PAID" then Some(Paid)
    else if name == "VOIDED" then Some(Voided)
    else if name == "REFUNDED" then Some(Refunded)
    else None
  }

  function ClassNamed(name: string): Option<Class> {
    if name == "SHIPMENT" then Some(Shipment)
    else if name == "INVOICE" then Some(Invoice)
    else if name == "UNCLASSIFIED" then Some(Unclassified)
    else None
  }

  // ---------- the lifecycles, by name ----------

  const SHIPMENT_STATES := ["PICKED_UP", "IN_TRANSIT", "OUT_FOR_DELIVERY", "DELIVERED"]
  const INVOICE_STATES := ["ISSUED", "PAID", "VOIDED", "REFUNDED"]
  const INVOICE_EDGES := [("ISSUED", "PAID"), ("ISSUED", "VOIDED"), ("PAID", "REFUNDED")]

  lemma ShipmentStatesByName(s: State)
    ensures IsShipmentState(s) <==> StateName(s) in SHIPMENT_STATES
    ensures IsShipmentState(s) ==> 1 <= ShipmentRank(s) <= 4 && SHIPMENT_STATES[ShipmentRank(s) - 1] == StateName(s)
    ensures !IsShipmentState(s) ==> ShipmentRank(s) == 0
  {
  }

  lemma InvoiceStatesByName(s: State, t: State)
    ensures IsInvoiceState(s) <==> StateName(s) in INVOICE_STATES
    ensures InvoiceTransitionAllowed(s, t) <==> (StateName(s), StateName(t)) in INVOICE_EDGES
  {
  }

  lemma ClassesByName()
    ensures ClassName(Shipment) == "SHIPMENT" && ClassName(Invoice) == "INVOICE"
    ensures ClassName(Unclassified) == "UNCLASSIFIED"
  {
  }

  // ---------- the gate ----------

  /** Keep amount and currency only as a coherent pair. */
  function SanitizeMoney(amount: Option<int>, currency: string): (Option<int>, string) {
    var cur := CanonicalKey(currency);
    if amount.Some? && amount.value >= 0 && ValidCurrency(cur) then (amount, cur) else (None, "")
  }

  /** Best-effort time: blank is absent, and so is whatever `parse` does not understand. */
  function ParseEventTime(parse: string -> Option<int>, s: string): Option<int> {
    var t := TrimSpace(s);
    if t == "" then None else parse(t)
  }

  /** What `Apply` decides, as one expression. */
  function Gate(minConfidence: real, parse: string -> Option<int>, r: Response): Result<Normalized, GateError> {
    var named: Option<Class> := ClassNamed(CanonicalKey(r.classification));
    var class_: Option<Class> :=
      if named != Some(Unclassified) && r.confidence < minConfidence then Some(Unclassified) else named;
    var text, time := TrimSpace(r.vendorStateText), ParseEventTime(parse, r.eventTime);
    if class_.None? then Err(UnknownClass)
    else if class_.value.Unclassified? then Ok(Normalized(Unclassified, "", None, time, None, "", text, r.confidence))
    else
      var c := class_.value;
      var state := StateNamed(CanonicalKey(r.canonicalState));
      var key := CanonicalKey(r.entityKey);
      if state.None? || !(if c.Shipment? then IsShipmentState(state.value) else IsInvoiceState(state.value))
      then Err(UnknownState(c))
      else if key == "" then Err(MissingKey(c))
      else
        var (amount, cur) := if c.Shipment? then (None, "") else SanitizeMoney(r.amountMinor, r.currency);
        Ok(Normalized(c, key, state, time, amount, cur, text, r.confidence))
  }

  class Normalizer {
    const minConfidence: real
    const parse: string -> Option<int>

    constructor (minConfidence: real, parse: string -> Option<int>)
      ensures this.minConfidence == minConfidence && this.parse == parse
    {
      this.minConfidence := minConfidence;
      this.parse := parse;
    }

    method IsAlpha(s: string) returns (ok: bool)
      ensures ok <==> forall i :: 0 <= i < |s| ==> 'A' <= s[i] <= 'Z'
    {
      for i := 0 to |s|
        invariant forall j :: 0 <= j < i ==> 'A' <= s[j] <= 'Z'
      {
        if s[i] < 'A' || s[i] > 'Z' {
          return false;
        }
      }
      return true;
    }

    method Apply(r: Response) returns (res: Result<Normalized, GateError>)
      ensures res == Gate(minConfidence, parse, r)
    {
      var class_ := ClassNamed(CanonicalKey(r.classification));
      if class_ != Some(Unclassified) && r.confidence < minConfidence {
        class_ := Some(Unclassified);
      }
      if class_.None? {
        return Err(UnknownClass);
      }
      var out := Normalized(class_.value, "", None, ParseEventTime(parse, r.eventTime), None, "",
                            TrimSpace(r.vendorStateText), r.confidence);
      if class_.value.Unclassified? {
        return Ok(out);
      }
      var state := StateNamed(CanonicalKey(r.canonicalState));
      if state.None? || (class_.value.Shipment? && !IsShipmentState(state.value))
         || (class_.value.Invoice? && !IsInvoiceState(state.value)) {
        return Err(UnknownState(class_.value));
      }
      var key := CanonicalKey(r.entityKey);
      if key == "" {
        return Err(MissingKey(class_.value));
      }
      out := out.(canonicalState := state, entityKey := key);
      if class_.value.Invoice? {
        var cur := CanonicalKey(r.currency);
        var alpha := IsAlpha(cur);
        if r.amountMinor.Some? && r.amountMinor.value >= 0 && |cur| == 3 && alpha {
          out := out.(amountMinor := r.amountMinor, currency := cur);
        }
      }
      return Ok(out);
    }
  }

  // ---------- what the gate guarantees ----------

  /** A fact that may be stored. */
  predicate WfNormalized(n: Normalized) {
    match n.class_
    case Unclassified => n.entityKey == "" && n.canonicalState.None? && n.amountMinor.None? && n.currency == ""
    case Shipment =>
      && n.entityKey != "" && CanonicalKey(n.entityKey) == n.entityKey
      && n.canonicalState.Some? && IsShipmentState(n.canonicalState.value)
      && n.amountMinor.None? && n.currency == ""
    case Invoice =>
      && n.entityKey != "" && CanonicalKey(n.entityKey) == n.entityKey
      && n.canonicalState.Some? && IsInvoiceState(n.canonicalState.value)
      && MoneyPair(n.amountMinor, NullIfEmpty(n.currency))
  }

  lemma GateOutputIsWellFormed(minConfidence: real, parse: string -> Option<int>, r: Response)
    requires Gate(minConfidence, parse, r).Ok?
    ensures WfNormalized(Gate(minConfidence, parse, r).value)
  {
    CanonicalKeyIsFixpoint(r.entityKey);
  }

  /** A reply that is unclassified, or not confident enough to be anything else. */
  ghost predicate Uncertain(minConfidence: real, r: Response) {
    VariantOf(r.classification, ClassName(Unclassified)) || r.confidence < minConfidence
  }

  predicate StateOfClass(c: Class, s: State) {
    (c.Shipment? && IsShipmentState(s)) || (c.Invoice? && IsInvoiceState(s))
  }

  /** The text of a reply names this class, and this state of its lifecycle. */
  ghost predicate Names(r: Response, c: Class, s: State) {
    StateOfClass(c, s) && VariantOf(r.classification, ClassName(c)) && VariantOf(r.canonicalState, StateName(s))
  }

  /** A certain reply without a class, a state of that class or a key. */
  ghost predicate Refused(minConfidence: real, r: Response) {
    !Uncertain(minConfidence, r) && (Blank(r.entityKey) || forall c, s :: !Names(r, c, s))
  }

  lemma NameOfState(name: string, s: State)
    ensures StateNamed(name) == Some(s) <==> name == StateName(s)
  {
  }

  lemma NameOfClass(name: string, c: Class)
    ensures ClassNamed(name) == Some(c) <==> name == ClassName(c)
  {
  }

  /** A text stands for a state exactly if it is a variant of its name. */
  lemma StateNamesAreExact(text: string, s: State)
    ensures StateNamed(CanonicalKey(text)) == Some(s) <==> VariantOf(text, StateName(s))
  {
    NameOfState(CanonicalKey(text), s);
    StateNameIsFixpoint(s);
    CanonicalIsFixpoint(StateName(s));
    VariantsFindTheKey(text, StateName(s));
  }

  lemma ClassNamesAreExact(text: string, c: Class)
    ensures ClassNamed(CanonicalKey(text)) == Some(c) <==> VariantOf(text, ClassName(c))
  {
    NameOfClass(CanonicalKey(text), c);
    ClassNameIsFixpoint(c);
    CanonicalIsFixpoint(ClassName(c));
    VariantsFindTheKey(text, ClassName(c));
  }

  lemma BlankIsEmptyKey(s: string)
    ensures CanonicalKey(s) == "" <==> Blank(s)
  {
    VariantsFindTheKey(s, "");
    if Blank(s) {
      assert s == s + "" + "";
    }
    if pre, body, post :| Blank(pre) && Blank(post) && s == pre + body + post && SameSpelling(body, "") {
      assert s == pre + post;
    }
  }

  lemma UncertainIsUnclassified(minConfidence: real, r: Response)
    ensures Uncertain(minConfidence, r)
       <==> ClassNamed(CanonicalKey(r.classification)) == Some(Unclassified) || r.confidence < minConfidence
  {
    ClassNamesAreExact(r.classification, Unclassified);
  }

  /** The gate rejects a reply if and only if it is certain and does not name a class with a
      state of its lifecycle and a key. */
  lemma GateRejectsExactly(minConfidence: real, parse: string -> Option<int>, r: Response)
    ensures Gate(minConfidence, parse, r).Err? <==> Refused(minConfidence, r)
  {
    UncertainIsUnclassified(minConfidence, r);
    BlankIsEmptyKey(r.entityKey);
    forall c, s
      ensures ClassNamed(CanonicalKey(r.classification)) == Some(c) <==> VariantOf(r.classification, ClassName(c))
      ensures StateNamed(CanonicalKey(r.canonicalState)) == Some(s) <==> VariantOf(r.canonicalState, StateName(s))
    {
      ClassNamesAreExact(r.classification, c);
      StateNamesAreExact(r.canonicalState, s);
    }
    var class_, state := ClassNamed(CanonicalKey(r.classification)), StateNamed(CanonicalKey(r.canonicalState));
    if class_.Some? && state.Some? && StateOfClass(class_.value, state.value) {
      assert Names(r, class_.value, state.value);
    }
  }

  /** The reply has an amount that is not negative and three letters for a currency. */
  ghost predicate HasMoney(r: Response, amount: int, currency: string) {
    && r.amountMinor == Some(amount) && amount >= 0
    && |currency| == 3 && (forall i :: 0 <= i < 3 ==> currency[i] in UPPER) && VariantOf(r.currency, currency)
  }

  ghost predicate SaysText(parse: string -> Option<int>, r: Response, n: Normalized) {
    && n.confidence == r.confidence && TrimOf(r.vendorStateText, n.vendorStateText)
    && (exists t :: TrimOf(r.eventTime, t) && n.eventTime == if t == "" then None else parse(t))
  }

  ghost predicate SaysState(minConfidence: real, r: Response, n: Normalized) {
    && (n.class_.Unclassified? <==> Uncertain(minConfidence, r))
    && if n.class_.Unclassified? then n.entityKey == "" && n.canonicalState.None?
       else
         && n.canonicalState.Some? && Names(r, n.class_, n.canonicalState.value)
         && IsCanonical(n.entityKey) && n.entityKey != "" && VariantOf(r.entityKey, n.entityKey)
  }

  ghost predicate SaysMoney(r: Response, n: Normalized) {
    && (n.amountMinor.Some? <==> n.class_.Invoice? && exists a, cur :: HasMoney(r, a, cur))
    && if n.amountMinor.Some? then HasMoney(r, n.amountMinor.value, n.currency) else n.currency == ""
  }

  /** The fact says what the reply says: class, state and key as the reply names them, and
      the money of the reply exactly if it is a valid pair on an invoice; an uncertain reply
      becomes UNCLASSIFIED and keeps none of them. */
  ghost predicate Says(minConfidence: real, parse: string -> Option<int>, r: Response, n: Normalized) {
    SaysText(parse, r, n) && SaysState(minConfidence, r, n) && SaysMoney(r, n)
  }

  lemma CapitalsOnly(c: string)
    ensures ValidCurrency(c) <==> |c| == 3 && forall i :: 0 <= i < 3 ==> c[i] in UPPER
  {
    forall i | 0 <= i < |c| ensures c[i] in UPPER <==> 'A' <= c[i] <= 'Z' {
      if 'A' <= c[i] <= 'Z' {
        LettersInOrder(c[i] as int - 'A' as int);
      }
      if k :| 0 <= k < 26 && UPPER[k] == c[i] {
        LettersInOrder(k);
      }
    }
  }

  lemma MoneyIsExact(r: Response)
    ensures (exists a, cur :: HasMoney(r, a, cur))
       <==> r.amountMinor.Some? && r.amountMinor.value >= 0 && ValidCurrency(CanonicalKey(r.currency))
    ensures ValidCurrency(CanonicalKey(r.currency)) && r.amountMinor.Some? && r.amountMinor.value >= 0 ==>
              HasMoney(r, r.amountMinor.value, CanonicalKey(r.currency))
  {
    VariantsFindTheKey(r.currency, CanonicalKey(r.currency));
    CapitalsOnly(CanonicalKey(r.currency));
    if r.amountMinor.Some? && r.amountMinor.value >= 0 && ValidCurrency(CanonicalKey(r.currency)) {
      assert HasMoney(r, r.amountMinor.value, CanonicalKey(r.currency));
    }
    if a, cur :| HasMoney(r, a, cur) {
      CapitalsOnly(cur);
      Untouched(cur);
      CanonicalIsFixpoint(cur);
      VariantsFindTheKey(r.currency, cur);
    }
  }

  lemma GateKeepsText(minConfidence: real, parse: string -> Option<int>, r: Response)
    requires Gate(minConfidence, parse, r).Ok?
    ensures SaysText(parse, r, Gate(minConfidence, parse, r).value)
  {
    TrimSpaceTrims(r.vendorStateText);
    TrimSpaceTrims(r.eventTime);
  }

  lemma GateKeepsState(minConfidence: real, parse: string -> Option<int>, r: Response)
    requires Gate(minConfidence, parse, r).Ok?
    ensures SaysState(minConfidence, r, Gate(minConfidence, parse, r).value)
  {
    var n := Gate(minConfidence, parse, r).value;
    UncertainIsUnclassified(minConfidence, r);
    if !n.class_.Unclassified? {
      ClassNamesAreExact(r.classification, n.class_);
      StateNamesAreExact(r.canonicalState, n.canonicalState.value);
      VariantsFindTheKey(r.entityKey, n.entityKey);
    }
  }

  lemma GateKeepsMoney(minConfidence: real, parse: string -> Option<int>, r: Response)
    requires Gate(minConfidence, parse, r).Ok?
    ensures SaysMoney(r, Gate(minConfidence, parse, r).value)
  {
    MoneyIsExact(r);
  }

  lemma GateKeepsWhatIsNamed(minConfidence: real, parse: string -> Option<int>, r: Response)
    requires Gate(minConfidence, parse, r).Ok?
    ensures Says(minConfidence, parse, r, Gate(minConfidence, parse, r).value)
  {
    GateKeepsText(minConfidence, parse, r);
    GateKeepsState(minConfidence, parse, r);
    GateKeepsMoney(minConfidence, parse, r);
  }

  /** An accepted fact written back as a response. */
  function AsResponse(n: Normalized): Response {
    Response(ClassName(n.class_), n.entityKey,
             if n.canonicalState.Some? then StateName(n.canonicalState.value) else "", "",
             n.amountMinor, n.currency, n.vendorStateText, n.confidence)
  }

  lemma MoneyIsStable(amount: Option<int>, currency: string)
    requires MoneyPair(amount, NullIfEmpty(currency))
    ensures SanitizeMoney(amount, currency) == (amount, currency)
  {
    if amount.Some? {
      Untouched(currency);
    }
  }

  lemma WellFormedFactsPass(minConfidence: real, parse: string -> Option<int>, n: Normalized)
    requires WfNormalized(n) && Trimmed(n.vendorStateText)
    requires n.class_.Unclassified? || n.confidence >= minConfidence
    ensures Gate(minConfidence, parse, AsResponse(n)) == Ok(n.(eventTime := None))
  {
    ClassNameIsCanonical(n.class_);
    TrimmedIsKept(n.vendorStateText);
    if !n.class_.Unclassified? {
      StateNameIsCanonical(n.canonicalState.value);
      MoneyIsStable(n.amountMinor, n.currency);
    }
  }

  /** The gate accepts its own output and changes nothing but the time. */
  lemma GateIsStable(minConfidence: real, parse: string -> Option<int>, r: Response)
    requires Gate(minConfidence, parse, r).Ok?
    ensures var n := Gate(minConfidence, parse, r).value;
            Gate(minConfidence, parse, AsResponse(n)) == Ok(n.(eventTime := None))
  {
    GateOutputIsWellFormed(minConfidence, parse, r);
    var _, _ := TrimIsTrimmed(r.vendorStateText);
    WellFormedFactsPass(minConfidence, parse, Gate(minConfidence, parse, r).value);
  }

  lemma Untouched(s: string)
    requires forall i :: 0 <= i < |s| ==> !IsSpace(s[i]) && Upper(s[i]) == s[i]
    ensures CanonicalKey(s) == s
  {
    assert TrimLeft(s) == s && TrimRight(s) == s;
    assert ToUpper(s) == s;
  }

  lemma ClassNameIsFixpoint(c: Class)
    ensures CanonicalKey(ClassName(c)) == ClassName(c)
  {
    Untouched(ClassName(c));
  }

  lemma StateNameIsFixpoint(s: State)
    ensures CanonicalKey(StateName(s)) == StateName(s)
  {
    Untouched(StateName(s));
  }

  lemma ClassNameIsCanonical(c: Class)
    ensures ClassNamed(CanonicalKey(ClassName(c))) == Some(c)
  {
    ClassNameIsFixpoint(c);
    NameOfClass(ClassName(c), c);
  }

  lemma StateNameIsCanonical(s: State)
    ensures StateNamed(CanonicalKey(StateName(s))) == Some(s)
  {
    StateNameIsFixpoint(s);
    NameOfState(StateName(s), s);
  }

  // ---------- keys ----------

  predicate AllSpace(s: string) {
    forall i :: 0 <= i < |s| ==> IsSpace(s[i])
  }

  lemma AllSpaceIsBlank(s: string)
    ensures AllSpace(s) <==> Blank(s)
  {
    forall i | 0 <= i < |s| ensures IsSpace(s[i]) <==> s[i] in BLANKS {
      SpacesAreBlanks(s[i]);
    }
  }

  predicate Trimmed(s: string) {
    s == "" || (!IsSpace(s[0]) && !IsSpace(Last(s)))
  }

  lemma TrimmedIsKept(s: string)
    requires Trimmed(s)
    ensures TrimSpace(s) == s
  {
  }

  lemma {:induction false} TrimLeftSplits(s: string) returns (pre: string)
    ensures AllSpace(pre) && s == pre + TrimLeft(s)
    ensures TrimLeft(s) != "" ==> !IsSpace(TrimLeft(s)[0])
  {
    pre := "";
    if s != "" && IsSpace(s[0]) {
      var p := TrimLeftSplits(s[1..]);
      pre := [s[0]] + p;
    }
  }

  lemma {:induction false} TrimRightSplits(s: string) returns (post: string)
    ensures AllSpace(post) && s == TrimRight(s) + post
    ensures TrimRight(s) != "" ==> !IsSpace(Last(TrimRight(s)))
  {
    post := "";
    if s != "" && IsSpace(Last(s)) {
      var p := TrimRightSplits(Most(s));
      post := p + [Last(s)];
      assert s == Most(s) + [Last(s)];
    }
  }

  lemma TrimIsTrimmed(s: string) returns (pre: string, post: string)
    ensures Trimmed(TrimSpace(s)) && AllSpace(pre) && AllSpace(post)
    ensures s == pre + TrimSpace(s) + post
  {
    pre := TrimLeftSplits(s);
    post := TrimRightSplits(TrimLeft(s));
    assert TrimSpace(s) != "" ==> TrimSpace(s)[0] == TrimLeft(s)[0];
  }

  lemma {:induction false} TrimLeftDrops(pre: string, s: string)
    requires AllSpace(pre)
    ensures TrimLeft(pre + s) == TrimLeft(s)
  {
    if pre == "" {
      assert pre + s == s;
    } else {
      assert (pre + s)[1..] == pre[1..] + s;
      TrimLeftDrops(pre[1..], s);
    }
  }

  lemma {:induction false} TrimRightDrops(s: string, post: string)
    requires AllSpace(post)
    ensures TrimRight(s + post) == TrimRight(s)
  {
    if post == "" {
      assert s + post == s;
    } else {
      assert Most(s + post) == s + Most(post);
      TrimRightDrops(s, Most(post));
    }
  }

  lemma PaddingIsDropped(pre: string, s: string, post: string)
    requires AllSpace(pre) && AllSpace(post) && Trimmed(s)
    ensures TrimSpace(pre + s + post) == s
  {
    assert pre + s + post == pre + (s + post);
    TrimLeftDrops(pre, s + post);
    if s == "" {
      assert s + post == post + "";
      TrimLeftDrops(post, "");
    } else {
      TrimRightDrops(s, post);
    }
  }

  lemma CanonicalKeyIsFixpoint(s: string)
    ensures CanonicalKey(CanonicalKey(s)) == CanonicalKey(s)
  {
    var pre, post := TrimIsTrimmed(s);
    var k := CanonicalKey(s);
    assert Trimmed(k);
    TrimmedIsKept(k);
    assert ToUpper(k) == k;
  }

  /** No small letter, and no blank at either end. */
  predicate IsCanonical(key: string) {
    && (forall i :: 0 <= i < |key| ==> key[i] !in LOWER)
    && (key != "" ==> key[0] !in BLANKS && Last(key) !in BLANKS)
  }

  lemma SmallLetters(c: char)
    ensures c in LOWER <==> 'a' <= c <= 'z'
  {
    if 'a' <= c <= 'z' {
      var i := c as int - 'a' as int;
      LettersInOrder(i);
    }
    if i :| 0 <= i < 26 && LOWER[i] == c {
      LettersInOrder(i);
    }
  }

  lemma CanonicalIsUpper(key: string)
    requires IsCanonical(key)
    ensures ToUpper(key) == key
  {
    forall i | 0 <= i < |key| ensures Upper(key[i]) == key[i] {
      SmallLetters(key[i]);
    }
  }

  lemma CanonicalIsFixpoint(key: string)
    ensures IsCanonical(key) <==> CanonicalKey(key) == key
  {
    forall i | 0 <= i < |key| ensures key[i] in LOWER <==> Upper(key[i]) != key[i] {
      SmallLetters(key[i]);
    }
    if key != "" {
      SpacesAreBlanks(key[0]);
      SpacesAreBlanks(Last(key));
    }
    var pre, post := TrimIsTrimmed(key);
    if IsCanonical(key) {
      TrimmedIsKept(key);
      assert ToUpper(key) == key;
    }
    if CanonicalKey(key) == key {
      assert |TrimSpace(key)| == |key| && pre == "" && post == "";
      assert key == TrimSpace(key);
      assert forall i :: 0 <= i < |key| ==> ToUpper(key)[i] == key[i];
    }
  }

  lemma TrimSpaceTrims(s: string)
    ensures TrimOf(s, TrimSpace(s))
  {
    var pre, post := TrimIsTrimmed(s);
    AllSpaceIsBlank(pre);
    AllSpaceIsBlank(post);
    if TrimSpace(s) != "" {
      SpacesAreBlanks(TrimSpace(s)[0]);
      SpacesAreBlanks(Last(TrimSpace(s)));
    }
  }

  lemma CanonicalBodyIsTrimmed(body: string, key: string)
    requires IsCanonical(key) && ToUpper(body) == key
    ensures Trimmed(body)
  {
    if body != "" {
      assert key[0] == Upper(body[0]) && Last(key) == Upper(Last(body));
      SpacesAreBlanks(key[0]);
      SpacesAreBlanks(Last(key));
    }
  }

  lemma VariantsAreUppered(q: string, key: string)
    requires IsCanonical(key) && VariantOf(q, key)
    ensures CanonicalKey(q) == key
  {
    var pre, body, post :| Blank(pre) && Blank(post) && q == pre + body + post && SameSpelling(body, key);
    SameSpellingIsSameUpper(body, key);
    CanonicalIsUpper(key);
    CanonicalBodyIsTrimmed(body, key);
    AllSpaceIsBlank(pre);
    AllSpaceIsBlank(post);
    PaddingIsDropped(pre, body, post);
  }

  /** The canonical key of a text is the one text without small letters or outer blanks that
      it is a variant of: so two texts have one key exactly if they are variants of one. */
  lemma VariantsFindTheKey(q: string, key: string)
    ensures CanonicalKey(q) == key <==> IsCanonical(key) && VariantOf(q, key)
  {
    if CanonicalKey(q) == key {
      CanonicalKeyIsFixpoint(q);
      CanonicalIsFixpoint(key);
      TrimSpaceTrims(q);
      var pre, post :| Blank(pre) && Blank(post) && q == pre + TrimSpace(q) + post;
      assert ToUpper(key) == key by {
        assert forall i :: 0 <= i < |key| ==> Upper(key[i]) == key[i];
      }
      SameSpellingIsSameUpper(TrimSpace(q), key);
      assert VariantOf(q, key);
    }
    if IsCanonical(key) && VariantOf(q, key) {
      VariantsAreUppered(q, key);
    }
  }
}
