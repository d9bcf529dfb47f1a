/** Reading sides, order types, times in force and ticker symbols from text, as internal/domain/types.go does. */
module Types {
  import opened Text
  import opened Orders

  /**
   The upper-case form of a character as far as the letters A to Z are concerned: dotless i and long s have I and S
   as theirs, and every other character outside the alphabet stays outside it.
   */
  function Upper(c: char): char {
    if 'a' <= c <= 'z' then c - 'a' + 'A'
    else if c == '\U{0131}' then 'I'
    else if c == '\U{017F}' then 'S'
    else c
  }

  /** Each letter, small or capital, has its capital as upper case. */
  lemma LettersRise(i: nat)
    requires i < 26
    ensures Upper('a' + i as char) == Upper('A' + i as char) == 'A' + i as char
  {}

  function ToUpper(s: string): (u: string)
    ensures |u| == |s|
  {
    seq(|s|, i requires 0 <= i < |s| => Upper(s[i]))
  }

  function Normal(s: string): string {
    ToUpper(TrimSpace(s))
  }

  function SideOf(s: string): Result<Side> {
    var u := Normal(s);
    if u == "BUY" then Ok(Buy) else if u == "SELL" then Ok(Sell) else Err(InvalidSide)
  }

  function OrderTypeOf(s: string): Result<OrderType> {
    var u := Normal(s);
    if u == "MARKET" then Ok(Market) else if u == "LIMIT" then Ok(Limit) else Err(InvalidOrderType)
  }

  function TimeInForceOf(s: string): Result<TimeInForce> {
    var u := Normal(s);
    if u == "DAY" then Ok(Day)
    else if u == "GTC" then Ok(Gtc)
    else if u == "IOC" then Ok(Ioc)
    else if u == "FOK" then Ok(Fok)
    else Err(InvalidTIF)
  }

  /** The eight names there are, each read as what it names. */
  lemma NamesRead()
    ensures SideOf("BUY") == Ok(Buy) && SideOf("SELL") == Ok(Sell)
    ensures OrderTypeOf("MARKET") == Ok(Market) && OrderTypeOf("LIMIT") == Ok(Limit)
    ensures TimeInForceOf("DAY") == Ok(Day) && TimeInForceOf("GTC") == Ok(Gtc)
    ensures TimeInForceOf("IOC") == Ok(Ioc) && TimeInForceOf("FOK") == Ok(Fok)
  {
    hide Normal;
    CapitalsStay("BUY");
    CapitalsStay("SELL");
    CapitalsStay("MARKET");
    CapitalsStay("LIMIT");
    CapitalsStay("DAY");
    CapitalsStay("GTC");
    CapitalsStay("IOC");
    CapitalsStay("FOK");
  }

  /** Nothing else is read: up to space and case, an accepted text is the name of what it was read as. */
  lemma OnlyNamesRead(s: string)
    ensures SideOf(s).Ok? ==> (SideOf(s).value, Normal(s)) in {(Buy, "BUY"), (Sell, "SELL")}
    ensures OrderTypeOf(s).Ok? ==> (OrderTypeOf(s).value, Normal(s)) in {(Market, "MARKET"), (Limit, "LIMIT")}
    ensures TimeInForceOf(s).Ok? ==>
      (TimeInForceOf(s).value, Normal(s)) in {(Day, "DAY"), (Gtc, "GTC"), (Ioc, "IOC"), (Fok, "FOK")}
    ensures SideOf(s).Err? ==> SideOf(s) == Err(InvalidSide)
    ensures OrderTypeOf(s).Err? ==> OrderTypeOf(s) == Err(InvalidOrderType)
    ensures TimeInForceOf(s).Err? ==> TimeInForceOf(s) == Err(InvalidTIF)
  {
    hide Normal;
  }

  lemma CapitalsStay(s: string)
    requires s != "" && forall i :: 0 <= i < |s| ==> IsCapital(s[i])
    ensures Normal(s) == s
  {
    hide TrimSpace;
    TrimNothing(s);
    assert ToUpper(s) == s;
  }

  predicate IsCapital(c: char) {
    'A' <= c <= 'Z'
  }

  /** One to eight capital letters. */
  predicate IsSymbol(u: string) {
    1 <= |u| <= 8 && forall i :: 0 <= i < |u| ==> IsCapital(u[i])
  }

  function SymbolOf(s: string): Result<string> {
    if IsSymbol(Normal(s)) then Ok(Normal(s)) else Err(InvalidSymbol)
  }

  method ParseSymbol(s: string) returns (r: Result<string>)
    ensures r == SymbolOf(s)
  {
    hide Normal;
    var u := Normal(s);
    if |u| < 1 || |u| > 8 {
      return Err(InvalidSymbol);
    }
    for k := 0 to |u|
      invariant forall i :: 0 <= i < k ==> IsCapital(u[i])
    {
      if u[k] < 'A' || u[k] > 'Z' {
        return Err(InvalidSymbol);
      }
    }
    r := Ok(u);
  }

  /** A symbol once read is read the same again, so stored symbols and requested ones compare as texts. */
  lemma SymbolsAreFixed(s: string)
    requires SymbolOf(s).Ok?
    ensures IsSymbol(SymbolOf(s).value) && SymbolOf(SymbolOf(s).value) == SymbolOf(s)
  {
    hide TrimSpace;
    CapitalsStay(SymbolOf(s).value);
  }

  /** Space around a text and the case of its letters make no difference. */
  lemma SpellingIsFree(before: string, s: string, after: string)
    requires AllSpaces(before) && AllSpaces(after) && s != "" && !IsSpace(s[0]) && !IsSpace(s[|s| - 1])
    ensures var t := before + ToUpper(s) + after;
      && SideOf(t) == SideOf(s) && OrderTypeOf(t) == OrderTypeOf(s)
      && TimeInForceOf(t) == TimeInForceOf(s) && SymbolOf(t) == SymbolOf(s)
  {
    hide TrimSpace, AllSpaces;
    TrimNothing(s);
    TrimAround(before, ToUpper(s), after);
    assert ToUpper(ToUpper(s)) == ToUpper(s);
  }
}
