/** Deterministic client order ids (services/core_engine/ids.py). */
module OrderIds {
  import opened Common

  datatype Purpose = Entry | Sl | Tp | BeSl | Model3Exit | Close | EmergencyClose

  datatype Key = Key(tradeId: int, purpose: Purpose, leg: Option<int>)

  function Token(p: Purpose): string {
    match p
    case Entry => "entry"
    case Sl => "sl"
    case Tp => "tp"
    case BeSl => "be_sl"
    case Model3Exit => "model3_exit"
    case Close => "close"
    case EmergencyClose => "emergency"
  }

  const MAX_LENGTH := 36

  function Digit(d: nat): char
    requires d < 10
  {
    "0123456789"[d]
  }

  /** Decimal digits of a number, as Python formats an int. */
  function Decimal(n: nat): (s: string)
    ensures s != []
  {
    if n < 10 then [Digit(n)] else Decimal(n / 10) + [Digit(n % 10)]
  }

  predicate IsDigit(c: char) {
    '0' <= c <= '9'
  }

  /** The letters, digits, underscore and hyphen that the exchange accepts. */
  predicate IsSafe(c: char) {
    'a' <= c <= 'z' || 'A' <= c <= 'Z' || IsDigit(c) || c == '_' || c == '-'
  }

  function Suffix(leg: Option<int>): string
    requires leg.Some? ==> leg.value > 0
  {
    match leg
    case None => ""
    case Some(i) => "-" + Decimal(i)
  }

  /** The id text before its length and characters are checked. */
  function Text(k: Key): string
    requires k.tradeId > 0 && (k.leg.Some? ==> k.leg.value > 0)
  {
    "m7-" + Decimal(k.tradeId) + "-" + Token(k.purpose) + Suffix(k.leg)
  }

  function ClientOrderId(k: Key): Result<string, string> {
    if k.tradeId <= 0 then Failure("trade_id must be positive")
    else if k.purpose == Tp && k.leg.None? then Failure("TP order ids require leg_index")
    else if k.leg.Some? && k.leg.value <= 0 then Failure("leg_index must be positive")
    else if |Text(k)| > MAX_LENGTH then Failure("trade id is too long for a Binance client order id")
    else if exists i :: 0 <= i < |Text(k)| && !IsSafe(Text(k)[i])
    then Failure("client order id contains an unsafe character")
    else Success(Text(k))
  }

  /** The id of every kind of order, for trade 12. */
  lemma IdsOfTrade12()
    ensures ClientOrderId(Key(12, Entry, None)) == Success("m7-12-entry")
    ensures ClientOrderId(Key(12, Sl, None)) == Success("m7-12-sl")
    ensures ClientOrderId(Key(12, Tp, Some(3))) == Success("m7-12-tp-3")
    ensures ClientOrderId(Key(12, BeSl, None)) == Success("m7-12-be_sl")
    ensures ClientOrderId(Key(12, Model3Exit, None)) == Success("m7-12-model3_exit")
    ensures ClientOrderId(Key(12, Close, None)) == Success("m7-12-close")
    ensures ClientOrderId(Key(12, EmergencyClose, None)) == Success("m7-12-emergency")
  {
    assert Decimal(12) == "12" by {
      assert Decimal(1) == "1";
    }
    IsText(Key(12, Entry, None), "m7-12-entry");
    IsText(Key(12, Sl, None), "m7-12-sl");
    IsText(Key(12, Tp, Some(3)), "m7-12-tp-3");
    IsText(Key(12, BeSl, None), "m7-12-be_sl");
    IsText(Key(12, Model3Exit, None), "m7-12-model3_exit");
    IsText(Key(12, Close, None), "m7-12-close");
    IsText(Key(12, EmergencyClose, None), "m7-12-emergency");
  }

  lemma IsText(k: Key, text: string)
    requires k.tradeId == 12 && Decimal(12) == "12" && (k.leg.Some? ==> k.leg.value == 3)
    requires k.purpose == Tp ==> k.leg.Some?
    requires text == "m7-12-" + Token(k.purpose) + if k.leg.Some? then "-3" else ""
    ensures ClientOrderId(k) == Success(text)
  {
    TokenIsSafe(k.purpose);
    TextIsSafe(k);
    assert k.leg.Some? ==> Suffix(k.leg) == "-3";
    assert Text(k) == text;
  }

  // ---------------------------------------------------------------- decimal digits

  function Value(s: string): nat {
    if s == [] then 0
    else Value(s[..|s| - 1]) * 10 + if IsDigit(s[|s| - 1]) then s[|s| - 1] as nat - '0' as nat else 0
  }

  lemma ValueOfOneMore(front: string, c: char)
    requires IsDigit(c)
    ensures Value(front + [c]) == Value(front) * 10 + (c as nat - '0' as nat)
  {
    assert (front + [c])[..|front|] == front;
  }

  lemma {:induction false} DecimalReadsBack(n: nat)
    ensures Value(Decimal(n)) == n
    ensures forall i :: 0 <= i < |Decimal(n)| ==> IsDigit(Decimal(n)[i])
  {
    hide Value;
    var last := Decimal(n)[|Decimal(n)| - 1];
    if n < 10 {
      EmptyHasNoValue();
      assert Decimal(n) == [] + [last];
      ValueOfOneMore([], last);
    } else {
      DecimalReadsBack(n / 10);
      assert Decimal(n) == Decimal(n / 10) + [last];
      ValueOfOneMore(Decimal(n / 10), last);
    }
  }

  lemma EmptyHasNoValue()
    ensures Value([]) == 0
  {
  }

  function Pow10(k: nat): nat {
    if k == 0 then 1 else 10 * Pow10(k - 1)
  }

  /** A number below ten to the k has at most k digits. */
  lemma {:induction false} DecimalLength(n: nat, k: nat)
    requires k > 0 && n < Pow10(k)
    ensures |Decimal(n)| <= k
  {
    if n >= 10 {
      assert k > 1;
      DecimalLength(n / 10, k - 1);
    }
  }

  // ---------------------------------------------------------------- injectivity

  predicate NoHyphen(s: string) {
    forall i :: 0 <= i < |s| ==> s[i] != '-'
  }

  lemma FirstHyphen(a: string, x: string)
    requires NoHyphen(a)
    ensures var s := a + "-" + x;
            s[|a|] == '-' && NoHyphen(s[..|a|]) && s[..|a|] == a && s[|a| + 1..] == x
  {
  }

  /** Splitting at the first hyphen recovers both parts. */
  lemma SplitAtHyphen(a: string, x: string, b: string, y: string)
    requires NoHyphen(a) && NoHyphen(b) && a + "-" + x == b + "-" + y
    ensures a == b && x == y
  {
    FirstHyphen(a, x);
    FirstHyphen(b, y);
  }

  lemma TokensAreDistinct(p: Purpose, q: Purpose)
    ensures NoHyphen(Token(p))
    ensures Token(p) == Token(q) ==> p == q
  {
    var s, t := Token(p), Token(q);
    if p != q && |s| == |t| {
      assert s[0] != t[0];
    }
  }

  lemma DecimalIsInjective(m: nat, n: nat)
    ensures NoHyphen(Decimal(n))
    ensures Decimal(m) == Decimal(n) ==> m == n
  {
    DecimalReadsBack(m);
    DecimalReadsBack(n);
  }

  /** A hyphen follows the token exactly when there is a leg. */
  lemma HyphenMeansLeg(p: Purpose, i: Option<int>)
    requires i.Some? ==> i.value > 0
    ensures NoHyphen(Token(p) + Suffix(i)) <==> i.None?
    ensures i.Some? ==> Token(p) + Suffix(i) == Token(p) + "-" + Decimal(i.value)
  {
    hide Token, Decimal;
    TokensAreDistinct(p, p);
    if i.Some? {
      assert Token(p) + Suffix(i) == Token(p) + "-" + Decimal(i.value);
      FirstHyphen(Token(p), Decimal(i.value));
    }
  }

  lemma TokenAndLegAreRecovered(p: Purpose, i: Option<int>, q: Purpose, j: Option<int>)
    requires (i.Some? ==> i.value > 0) && (j.Some? ==> j.value > 0)
    requires Token(p) + Suffix(i) == Token(q) + Suffix(j)
    ensures p == q && i == j
  {
    hide Token, Decimal;
    TokensAreDistinct(p, q);
    TokensAreDistinct(q, p);
    HyphenMeansLeg(p, i);
    HyphenMeansLeg(q, j);
    if i.Some? {
      SplitAtHyphen(Token(p), Decimal(i.value), Token(q), Decimal(j.value));
      DecimalIsInjective(i.value, j.value);
    } else {
      assert Token(p) + Suffix(i) == Token(p) && Token(q) + Suffix(j) == Token(q);
    }
  }

  /** Different keys never share a client order id. */
  lemma ClientOrderIdIsInjective(a: Key, b: Key)
    requires ClientOrderId(a).Success? && ClientOrderId(a) == ClientOrderId(b)
    ensures a == b
  {
    hide Token, Decimal, Suffix, NoHyphen;
    var x, y := Token(a.purpose) + Suffix(a.leg), Token(b.purpose) + Suffix(b.leg);
    DecimalIsInjective(a.tradeId, b.tradeId);
    DecimalIsInjective(b.tradeId, a.tradeId);
    TextSplits(a);
    TextSplits(b);
    SplitAtHyphen(Decimal(a.tradeId), x, Decimal(b.tradeId), y);
    TokenAndLegAreRecovered(a.purpose, a.leg, b.purpose, b.leg);
  }

  lemma TextSplits(k: Key)
    requires k.tradeId > 0 && (k.leg.Some? ==> k.leg.value > 0)
    ensures |Text(k)| >= 3 && Text(k)[3..] == Decimal(k.tradeId) + "-" + (Token(k.purpose) + Suffix(k.leg))
  {
    hide Token, Decimal, Suffix;
  }

  // ---------------------------------------------------------------- the checks at the end

  lemma TokenIsSafe(p: Purpose)
    ensures forall i :: 0 <= i < |Token(p)| ==> IsSafe(Token(p)[i])
    ensures 2 <= |Token(p)| <= 11
  {
  }

  /** The character check never fires. */
  lemma TextIsSafe(k: Key)
    requires k.tradeId > 0 && (k.leg.Some? ==> k.leg.value > 0)
    ensures forall i :: 0 <= i < |Text(k)| ==> IsSafe(Text(k)[i])
  {
    hide Decimal, Token;
    DecimalReadsBack(k.tradeId);
    TokenIsSafe(k.purpose);
    if k.leg.Some? {
      DecimalReadsBack(k.leg.value);
    }
  }

  function TextLength(k: Key): nat
    requires k.tradeId > 0 && (k.leg.Some? ==> k.leg.value > 0)
  {
    4 + |Decimal(k.tradeId)| + |Token(k.purpose)| + if k.leg.Some? then 1 + |Decimal(k.leg.value)| else 0
  }

  /** An id is produced exactly when the key is well formed and its digits fit in 36 characters. */
  lemma ClientOrderIdSucceedsIff(k: Key)
    ensures ClientOrderId(k).Success? <==>
            && k.tradeId > 0 && (k.purpose == Tp ==> k.leg.Some?) && (k.leg.Some? ==> k.leg.value > 0)
            && TextLength(k) <= 36
  {
    if k.tradeId > 0 && (k.leg.Some? ==> k.leg.value > 0) {
      TextIsSafe(k);
      assert |Text(k)| == TextLength(k);
    }
  }

  const TWO_TO_THE_63 := 0x8000_0000_0000_0000
  const TWO_TO_THE_31 := 0x8000_0000

  lemma Pow10Values()
    ensures Pow10(10) == 10_000_000_000 && Pow10(19) == 10_000_000_000_000_000_000
  {
    assert Pow10(5) == 100_000;
    assert Pow10(10) == 10_000_000_000;
    assert Pow10(15) == 1_000_000_000_000_000;
  }

  /** Every id the database columns can ask for is produced: trade ids are 64-bit, take-profit
      legs 32-bit, and the other orders carry no leg. The longest take-profit id has exactly 36
      characters. */
  lemma DatabaseKeysAlwaysFit(tradeId: int, purpose: Purpose, leg: int)
    requires 0 < tradeId < TWO_TO_THE_63 && 0 < leg < TWO_TO_THE_31
    ensures ClientOrderId(Key(tradeId, Tp, Some(leg))).Success?
    ensures purpose != Tp ==> ClientOrderId(Key(tradeId, purpose, None)).Success?
    ensures TextLength(Key(tradeId, Tp, Some(leg))) <= MAX_LENGTH
  {
    Pow10Values();
    DecimalLength(tradeId, 19);
    DecimalLength(leg, 10);
    TokenIsSafe(purpose);
    ClientOrderIdSucceedsIff(Key(tradeId, Tp, Some(leg)));
    ClientOrderIdSucceedsIff(Key(tradeId, purpose, None));
  }
}
