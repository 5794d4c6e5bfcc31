/** Client order ids: how they are built, and how the leg type and the sequence number are read back. */
module ClientIds {
  import opened Common

  /** A UTC time cut into the parts the id shows; `day` is yymmdd. */
  datatype Clock = Clock(day: string, hour: nat, minute: nat, second: nat)

  datatype OrderKind = Entry | Stop

  function Digit(d: nat): char
    requires d < 10
  {
    '0' + d as char
  }

  function Decimal(n: nat): string {
    if n < 10 then [Digit(n)] else Decimal(n / 10) + [Digit(n % 10)]
  }

  /** Python's `{n:02d}`. */
  function TwoDigits(n: nat): string {
    if n < 10 then "0" + Decimal(n) else Decimal(n)
  }

  function HourStart(t: Clock): Clock {
    Clock(t.day, t.hour, 0, 0)
  }

  function TimeToken(t: Clock): string {
    t.day + TwoDigits(t.hour) + TwoDigits(t.minute) + TwoDigits(t.second)
  }

  function IntentId(symbolToken: string, openedAt: Clock, legType: string, sequence: nat): string {
    var at := if legType == "add_on" then HourStart(openedAt) else openedAt;
    var leg := if legType == "base" then "b" else "a";
    "ma_" + TimeToken(at) + "_" + symbolToken + "_" + leg + TwoDigits(sequence)
  }

  function ClientOrderId(symbolToken: string, openedAt: Clock, legType: string, kind: OrderKind, sequence: nat): string {
    IntentId(symbolToken, openedAt, legType, sequence) + (if kind.Entry? then "e" else "s")
  }

  /** The id of a replacement stop; `stamp` is the time to the millisecond. */
  function ReplacementStopId(stamp: string, symbolToken: string): string {
    "ma_" + stamp + "_" + symbolToken + "_r00s"
  }

  // ----- reading ids back -----

  function IntentIdOf(clientId: Option<string>): Option<string> {
    if clientId.None? || !("ma_" <= clientId.value) then None
    else if clientId.value[|clientId.value| - 1] in {'e', 's'} then Some(clientId.value[..|clientId.value| - 1])
    else clientId
  }

  /** Only a strategy id names an intent: the id without its kind letter, or all of it when it ends otherwise. */
  lemma {:induction false} IntentIdExactly(id: string)
    ensures IntentIdOf(None) == None
    ensures IntentIdOf(Some(id)).Some? <==> |id| >= 3 && id[..3] == "ma_"
    ensures IntentIdOf(Some(id)).Some? ==>
              var last := id[|id| - 1];
              (last == 'e' || last == 's' ==> IntentIdOf(Some(id)).value + [last] == id) && (last != 'e' && last != 's' ==> IntentIdOf(Some(id)).value == id)
  {
  }

  /** The part after the last underscore, or everything if there is none. */
  function AfterLastUnderscore(s: string): string {
    if s == "" then ""
    else if s[|s| - 1] == '_' then ""
    else AfterLastUnderscore(s[..|s| - 1]) + [s[|s| - 1]]
  }

  predicate IsAddOnId(clientId: Option<string>) {
    var intent := IntentIdOf(clientId);
    intent.Some? && intent.value != "" && "a" <= AfterLastUnderscore(intent.value)
  }

  function ParseDecimal(s: string): nat {
    if s == "" then 0
    else 10 * ParseDecimal(s[..|s| - 1]) + (if '0' <= s[|s| - 1] <= '9' then (s[|s| - 1] - '0') as nat else 0)
  }

  /** The sequence number an id carries after its leg letter. */
  function SequenceOf(clientId: Option<string>): Option<nat> {
    var intent := IntentIdOf(clientId);
    if intent.None? then None
    else
      var tail := AfterLastUnderscore(intent.value);
      if tail == "" then None else Some(ParseDecimal(tail[1..]))
  }

  // ----- facts -----

  lemma {:induction false} AfterLastUnderscoreOf(prefix: string, token: string)
    requires '_' !in token
    ensures AfterLastUnderscore(prefix + "_" + token) == token
  {
    var s := prefix + "_" + token;
    if token == "" {
      assert s[|s| - 1] == '_';
    } else {
      var init := token[..|token| - 1];
      AfterLastUnderscoreOf(prefix, init);
      assert s[..|s| - 1] == prefix + "_" + init;
      assert token[|token| - 1] in token;
      assert token == init + [token[|token| - 1]];
    }
  }

  lemma {:induction false} DecimalParses(n: nat)
    ensures ParseDecimal(Decimal(n)) == n
    ensures '_' !in Decimal(n)
  {
    var d := Decimal(n);
    if n >= 10 {
      DecimalParses(n / 10);
      assert d[..|d| - 1] == Decimal(n / 10);
    } else {
      assert d[..0] == "";
    }
  }

  lemma {:induction false} TwoDigitsParses(n: nat)
    ensures ParseDecimal(TwoDigits(n)) == n
    ensures '_' !in TwoDigits(n)
  {
    DecimalParses(n);
    if n < 10 {
      var s := TwoDigits(n);
      assert s[..1] == "0" && s[1] == Digit(n);
      assert ParseDecimal("0") == 0 by { assert "0"[..0] == ""; }
    }
  }

  /** The last token of an intent id is the leg letter followed by the sequence number. */
  lemma {:induction false} IntentTail(symbolToken: string, openedAt: Clock, legType: string, sequence: nat)
    ensures AfterLastUnderscore(IntentId(symbolToken, openedAt, legType, sequence))
         == (if legType == "base" then "b" else "a") + TwoDigits(sequence)
  {
    var at := if legType == "add_on" then HourStart(openedAt) else openedAt;
    var leg := if legType == "base" then "b" else "a";
    TwoDigitsParses(sequence);
    var prefix := "ma_" + TimeToken(at) + "_" + symbolToken;
    AfterLastUnderscoreOf(prefix, leg + TwoDigits(sequence));
    assert IntentId(symbolToken, openedAt, legType, sequence) == prefix + "_" + (leg + TwoDigits(sequence));
  }

  lemma {:induction false} KindIsDropped(intent: string, kind: string)
    requires "ma_" <= intent && kind in {"e", "s"}
    ensures IntentIdOf(Some(intent + kind)) == Some(intent)
  {
    var id := intent + kind;
    assert id[..|id| - 1] == intent && id[|id| - 1] == kind[0];
    assert id[..3] == intent[..3];
  }

  lemma {:induction false} IntentIdPrefix(symbolToken: string, openedAt: Clock, legType: string, sequence: nat)
    ensures "ma_" <= IntentId(symbolToken, openedAt, legType, sequence)
  {
  }

  /** Reading a client order id back recovers the intent id, the leg type and the sequence number. */
  lemma {:induction false} ClientOrderIdRoundTrip(symbolToken: string, openedAt: Clock, legType: string, kind: OrderKind, sequence: nat)
    ensures var id := Some(ClientOrderId(symbolToken, openedAt, legType, kind, sequence));
            && IntentIdOf(id) == Some(IntentId(symbolToken, openedAt, legType, sequence))
            && (IsAddOnId(id) <==> legType != "base")
            && SequenceOf(id) == Some(sequence)
  {
    var intent := IntentId(symbolToken, openedAt, legType, sequence);
    IntentIdPrefix(symbolToken, openedAt, legType, sequence);
    KindIsDropped(intent, if kind.Entry? then "e" else "s");
    IntentTail(symbolToken, openedAt, legType, sequence);
    TwoDigitsParses(sequence);
    var tail := AfterLastUnderscore(intent);
    assert tail[1..] == TwoDigits(sequence) && tail[0] == (if legType == "base" then 'b' else 'a');
    assert tail[..1] == [tail[0]];
  }

  /** Orders of one plan never share a client id: the sequence number and the kind tell them apart. */
  lemma {:induction false} DifferentOrdersDifferentIds(
    token0: string, at0: Clock, leg0: string, kind0: OrderKind, sequence0: nat,
    token1: string, at1: Clock, leg1: string, kind1: OrderKind, sequence1: nat)
    requires sequence0 != sequence1 || kind0 != kind1
    ensures ClientOrderId(token0, at0, leg0, kind0, sequence0) != ClientOrderId(token1, at1, leg1, kind1, sequence1)
  {
    var a := ClientOrderId(token0, at0, leg0, kind0, sequence0);
    var b := ClientOrderId(token1, at1, leg1, kind1, sequence1);
    if kind0 != kind1 {
      assert a[|a| - 1] != b[|b| - 1];
    } else {
      ClientOrderIdRoundTrip(token0, at0, leg0, kind0, sequence0);
      ClientOrderIdRoundTrip(token1, at1, leg1, kind1, sequence1);
      assert SequenceOf(Some(a)) != SequenceOf(Some(b));
    }
  }

  /** One add-on opportunity per hour: its id is the same all through the hour, whatever the minute. */
  lemma {:induction false} AddOnIdStableWithinHour(symbolToken: string, at0: Clock, at1: Clock, kind: OrderKind, sequence: nat)
    requires at0.day == at1.day && at0.hour == at1.hour
    ensures ClientOrderId(symbolToken, at0, "add_on", kind, sequence) == ClientOrderId(symbolToken, at1, "add_on", kind, sequence)
  {
  }
}
