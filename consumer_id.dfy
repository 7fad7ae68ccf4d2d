/** The consumer id an AddConsumer request assigns: the connection id, the
    request's sequence number (a Java long, printed in decimal), the literal
    "consumer", the app and the topic, joined by underscores. */
module ConsumerId {

  /** The values of a Java long. */
  newtype Long = x: int | -0x8000_0000_0000_0000 <= x < 0x8000_0000_0000_0000

  predicate IsDigit(c: char) {
    '0' <= c <= '9'
  }

  function DigitChar(d: nat): (c: char)
    requires d < 10
    ensures IsDigit(c) && c as int - '0' as int == d
  {
    (d + '0' as int) as char
  }

  /** Decimal digits of a natural number, most significant first, without leading zeros. */
  function NatToDecimal(n: nat): (s: string)
    ensures |s| > 0
    ensures forall i | 0 <= i < |s| :: IsDigit(s[i])
    ensures |s| > 1 ==> s[0] != '0'
    decreases n
  {
    if n < 10 then [DigitChar(n)] else NatToDecimal(n / 10) + [DigitChar(n % 10)]
  }

  /** How `%s` prints a long: a minus sign before the magnitude when negative. */
  function LongToString(n: Long): (s: string)
    ensures |s| > 0 && (s[0] == '-' <==> n < 0)
    ensures forall i | 0 <= i < |s| :: s[i] != '_'
  {
    if n < 0 then "-" + NatToDecimal(-(n as int)) else NatToDecimal(n as int)
  }

  function DigitValue(c: char): nat
    requires IsDigit(c)
  {
    c as int - '0' as int
  }

  /** Reads back a string of decimal digits. */
  function DecimalValue(s: string): nat
    requires forall i | 0 <= i < |s| :: IsDigit(s[i])
  {
    if s == [] then 0
    else DecimalValue(s[..|s| - 1]) * 10 + DigitValue(s[|s| - 1])
  }

  /** Reads back a printed long. */
  function ParseLong(s: string): int
    requires |s| > 0
    requires forall i | 0 < i < |s| :: IsDigit(s[i])
    requires s[0] == '-' || IsDigit(s[0])
  {
    if s[0] == '-' then -(DecimalValue(s[1..]) as int) else DecimalValue(s)
  }

  lemma {:induction false} DecimalRoundTrip(n: nat)
    ensures DecimalValue(NatToDecimal(n)) == n
    decreases n
  {
    if n >= 10 {
      var s := NatToDecimal(n);
      assert s[..|s| - 1] == NatToDecimal(n / 10);
      DecimalRoundTrip(n / 10);
    }
  }

  /** Printing a long and reading it back gives the long. */
  lemma LongRoundTrip(n: Long)
    ensures ParseLong(LongToString(n)) == n as int
  {
    var s := LongToString(n);
    if n < 0 {
      assert s[1..] == NatToDecimal(-(n as int));
      DecimalRoundTrip(-(n as int));
    } else {
      DecimalRoundTrip(n as int);
    }
  }

  /** The id of the consumer a connection registers for a topic. */
  function GenerateConsumerId(connectionId: string, topic: string, app: string, sequence: Long): (id: string)
    ensures |id| > |connectionId| + |topic|
    ensures id[..|connectionId| + 1] == connectionId + "_"
    ensures id[|id| - |topic|..] == topic
  {
    connectionId + "_" + LongToString(sequence) + "_consumer_" + app + "_" + topic
  }

  lemma UnderscoreAfter(d: string, rest: string)
    ensures |d + "_" + rest| > |d| && (d + "_" + rest)[|d|] == '_'
  {
  }

  /** Two printed longs followed by an underscore and anything else are equal
      only when the longs are: neither printed form contains an underscore. */
  lemma {:induction false} PrintedLongIsDelimited(n1: Long, n2: Long, rest1: string, rest2: string)
    requires LongToString(n1) + "_" + rest1 == LongToString(n2) + "_" + rest2
    ensures n1 == n2 && rest1 == rest2
  {
    var d1, d2 := LongToString(n1), LongToString(n2);
    var x1, x2 := d1 + "_" + rest1, d2 + "_" + rest2;
    if |d1| < |d2| {
      UnderscoreAfter(d1, rest1);
      assert false;
    } else if |d2| < |d1| {
      UnderscoreAfter(d2, rest2);
      assert false;
    }
    assert d1 == x1[..|d1|] == x2[..|d2|] == d2;
    assert rest1 == x1[|d1| + 1..] == x2[|d2| + 1..] == rest2;
    LongRoundTrip(n1);
    LongRoundTrip(n2);
  }

  /** For one connection and one app, the consumer id determines the request
      sequence and the topic: consumers of different topics, or of different
      requests, never share an id. */
  lemma ConsumerIdDeterminesSequenceAndTopic(connectionId: string, app: string,
                                             topic1: string, topic2: string,
                                             sequence1: Long, sequence2: Long)
    requires GenerateConsumerId(connectionId, topic1, app, sequence1)
          == GenerateConsumerId(connectionId, topic2, app, sequence2)
    ensures sequence1 == sequence2 && topic1 == topic2
  {
    var head := connectionId + "_";
    var rest1 := "consumer_" + app + "_" + topic1;
    var rest2 := "consumer_" + app + "_" + topic2;
    var tail1 := LongToString(sequence1) + "_" + rest1;
    var tail2 := LongToString(sequence2) + "_" + rest2;
    assert GenerateConsumerId(connectionId, topic1, app, sequence1) == head + tail1;
    assert GenerateConsumerId(connectionId, topic2, app, sequence2) == head + tail2;
    assert tail1 == (head + tail1)[|head|..] == (head + tail2)[|head|..] == tail2;
    PrintedLongIsDelimited(sequence1, sequence2, rest1, rest2);
    assert topic1 == rest1[|rest1| - |topic1|..];
    assert topic2 == rest2[|rest2| - |topic2|..];
  }
}
