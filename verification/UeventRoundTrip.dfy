/** Writing a uevent as a message and parsing it gives the uevent back. */
module UeventRoundTrip {
  import opened Wrappers
  import opened Uevents
  import opened UeventMessages

  // Decimal numbers

  function Digit(d: nat): (c: char)
    requires d < 10
    ensures IsDigit(c) && (c - '0') as nat == d
  {
    ('0' as int + d) as char
  }

  function Digits(n: nat): (s: string)
    ensures s != "" && forall i :: 0 <= i < |s| ==> IsDigit(s[i])
  {
    if n < 10 then [Digit(n)] else Digits(n / 10) + [Digit(n % 10)]
  }

  function Decimal(n: int): string {
    if n < 0 then "-" + Digits(-n) else Digits(n)
  }

  lemma {:induction false} AccumulateSnoc(s: string, c: char, acc: nat)
    requires IsDigit(c) && forall i :: 0 <= i < |s| ==> IsDigit(s[i])
    ensures Accumulate(s + [c], acc) == 10 * Accumulate(s, acc) + (c - '0') as nat
    decreases |s|
  {
    if s == "" {
      assert s + [c] == [c];
      assert Accumulate([c][1..], 10 * acc + (c - '0') as nat) == 10 * acc + (c - '0') as nat;
    } else {
      assert (s + [c])[1..] == s[1..] + [c];
      AccumulateSnoc(s[1..], c, 10 * acc + (s[0] - '0') as nat);
    }
  }

  lemma {:induction false} DigitsRead(n: nat)
    ensures Accumulate(Digits(n), 0) == n
  {
    if n < 10 {
      assert [Digit(n)] == "" + [Digit(n)];
      AccumulateSnoc("", Digit(n), 0);
    } else {
      DigitsRead(n / 10);
      AccumulateSnoc(Digits(n / 10), Digit(n % 10), 0);
    }
  }

  /** The C library reads back every decimal in its range. */
  lemma DecimalRead(n: int)
    ensures Signed(SkipSpaces(Decimal(n))) == n
    ensures MIN64 <= n <= MAX64 ==> Atoll(Decimal(n)) == n
    ensures MIN32 <= n <= MAX32 ==> Atoi(Decimal(n)) == n
  {
    DigitsRead(if n < 0 then -n else n);
    if n < 0 {
      assert Decimal(n)[1..] == Digits(-n);
    }
    assert SkipSpaces(Decimal(n)) == Decimal(n);
  }

  lemma {:induction false} DecimalPlain(n: int)
    ensures NUL !in Decimal(n)
  {
    assert forall i :: 0 <= i < |Decimal(n)| ==> IsDigit(Decimal(n)[i]) || Decimal(n)[i] == '-';
  }

  // Messages

  function Shown(f: Field): string {
    match f
    case Text(t) => t
    case Number(n) => Decimal(n)
  }

  function Record(u: Uevent, k: Key): string {
    Name(k) + Shown(Get(u, k))
  }

  function Encoded(u: Uevent, keys: seq<Key>): seq<string> {
    seq(|keys|, i requires 0 <= i < |keys| => Record(u, keys[i]))
  }

  function Message(u: Uevent): string {
    Joined(Encoded(u, KEYS))
  }

  /** Text without NUL, and numbers the fields can hold. */
  predicate Representable(u: Uevent) {
    && NUL !in u.action && NUL !in u.path && NUL !in u.subsystem && NUL !in u.driver && NUL !in u.firmware
    && NUL !in u.partitionName && NUL !in u.partitionUuid && NUL !in u.deviceName && NUL !in u.modalias
    && MIN32 <= u.partitionNum <= MAX32 && MIN32 <= u.major <= MAX32 && MIN32 <= u.minor <= MAX32
    && MIN64 <= u.seqnum <= MAX64
  }

  lemma ShownPlain(u: Uevent, k: Key)
    requires Representable(u)
    ensures NUL !in Shown(Get(u, k))
    ensures Converted(k, Shown(Get(u, k))) == Get(u, k)
  {
    match Get(u, k)
    case Text(t) =>
    case Number(n) =>
      DecimalPlain(n);
      DecimalRead(n);
  }

  lemma RecordPlain(u: Uevent, k: Key)
    requires Representable(u)
    ensures Plain(Record(u, k))
  {
    NameShape(k);
    ShownPlain(u, k);
  }

  lemma RecordKey(u: Uevent, k: Key, l: Key)
    ensures Name(k) <= Record(u, l) <==> k == l
    ensures |Name(l)| <= |Record(u, l)| && Record(u, l)[|Name(l)|..] == Shown(Get(u, l))
  {
    assert Name(l) <= Record(u, l);
    if Name(k) <= Record(u, l) {
      OneKeyPerRecord(k, l, Record(u, l));
    }
  }

  lemma EncodedSnoc(u: Uevent, keys: seq<Key>)
    requires keys != []
    ensures var records := Encoded(u, keys);
            && |records| == |keys|
            && records[|records| - 1] == Record(u, keys[|keys| - 1])
            && records[..|records| - 1] == Encoded(u, keys[..|keys| - 1])
  {
  }

  lemma {:induction false} LastEncoded(u: Uevent, keys: seq<Key>, k: Key)
    requires k in keys
    ensures LastValue(k, Encoded(u, keys)) == Some(Shown(Get(u, k)))
    decreases |keys|
  {
    EncodedSnoc(u, keys);
    RecordKey(u, k, keys[|keys| - 1]);
    if k != keys[|keys| - 1] {
      LastEncoded(u, keys[..|keys| - 1], k);
    }
  }

  lemma SameFields(u: Uevent, v: Uevent)
    requires forall k :: Get(u, k) == Get(v, k)
    ensures u == v
  {
    assert Get(u, ActionKey) == Get(v, ActionKey) && Get(u, DevpathKey) == Get(v, DevpathKey);
    assert Get(u, SubsystemKey) == Get(v, SubsystemKey) && Get(u, DriverKey) == Get(v, DriverKey);
    assert Get(u, FirmwareKey) == Get(v, FirmwareKey) && Get(u, MajorKey) == Get(v, MajorKey);
    assert Get(u, MinorKey) == Get(v, MinorKey) && Get(u, PartnKey) == Get(v, PartnKey);
    assert Get(u, SeqnumKey) == Get(v, SeqnumKey) && Get(u, PartnameKey) == Get(v, PartnameKey);
    assert Get(u, PartuuidKey) == Get(v, PartuuidKey) && Get(u, DevnameKey) == Get(v, DevnameKey);
    assert Get(u, ModaliasKey) == Get(v, ModaliasKey);
  }

  /** Whatever the uevent held before. */
  lemma MessageRoundTrip(u: Uevent, before: Uevent)
    requires Representable(u)
    ensures Parsed(Cleared(before), Records(Message(u))) == u
  {
    var records := Encoded(u, KEYS);
    forall i | 0 <= i < |records|
      ensures Plain(records[i])
    {
      RecordPlain(u, KEYS[i]);
    }
    RecordsOfJoined(records);
    var v := Parsed(Cleared(before), records);
    forall k
      ensures Get(v, k) == Get(u, k)
    {
      EveryKey(k);
      LastEncoded(u, KEYS, k);
      LastRecordWins(Cleared(before), records, k);
      ShownPlain(u, k);
    }
    SameFields(v, u);
  }

  // The keys as the kernel spells them

  lemma OneRecord(u: Uevent, k: Key, v: string)
    ensures Applied(u, Name(k) + v) == Set(u, k, v)
  {
    EveryKey(k);
    ClassifyFinds(Name(k) + v, KEYS, k);
    assert (Name(k) + v)[|Name(k)|..] == v;
  }

  /** A record with the text of a key and any value sets that field and no other. */
  lemma TextRecords(u: Uevent, v: string)
    ensures Applied(u, "ACTION=" + v) == u.(action := v)
    ensures Applied(u, "DEVPATH=" + v) == u.(path := v)
    ensures Applied(u, "SUBSYSTEM=" + v) == u.(subsystem := v)
    ensures Applied(u, "DRIVER=" + v) == u.(driver := v)
    ensures Applied(u, "FIRMWARE=" + v) == u.(firmware := v)
    ensures Applied(u, "PARTNAME=" + v) == u.(partitionName := v)
    ensures Applied(u, "PARTUUID=" + v) == u.(partitionUuid := v)
    ensures Applied(u, "DEVNAME=" + v) == u.(deviceName := v)
    ensures Applied(u, "MODALIAS=" + v) == u.(modalias := v)
  {
    OneRecord(u, ActionKey, v);
    OneRecord(u, DevpathKey, v);
    OneRecord(u, SubsystemKey, v);
    OneRecord(u, DriverKey, v);
    OneRecord(u, FirmwareKey, v);
    OneRecord(u, PartnameKey, v);
    OneRecord(u, PartuuidKey, v);
    OneRecord(u, DevnameKey, v);
    OneRecord(u, ModaliasKey, v);
  }

  lemma NumberRecords(u: Uevent, n: int)
    requires MIN32 <= n <= MAX32
    ensures Applied(u, "MAJOR=" + Decimal(n)) == u.(major := n)
    ensures Applied(u, "MINOR=" + Decimal(n)) == u.(minor := n)
    ensures Applied(u, "PARTN=" + Decimal(n)) == u.(partitionNum := n)
    ensures Applied(u, "SEQNUM=" + Decimal(n)) == u.(seqnum := n)
  {
    DecimalRead(n);
    OneRecord(u, MajorKey, Decimal(n));
    OneRecord(u, MinorKey, Decimal(n));
    OneRecord(u, PartnKey, Decimal(n));
    OneRecord(u, SeqnumKey, Decimal(n));
  }

  lemma MajorEight(u: Uevent)
    ensures Applied(u, "MAJOR=8") == u.(major := 8)
  {
    assert Decimal(8) == "8";
    NumberRecords(u, 8);
    assert "MAJOR=" + "8" == "MAJOR=8";
  }

  lemma OtherRecord(u: Uevent, record: string)
    requires forall k :: !(Name(k) <= record)
    ensures Applied(u, record) == u
  {
  }

  // Numbers in the middle of other text

  lemma {:induction false} AccumulateStops(s: string, rest: string, acc: nat)
    requires (forall i :: 0 <= i < |s| ==> IsDigit(s[i])) && (rest == "" || !IsDigit(rest[0]))
    ensures Accumulate(s + rest, acc) == Accumulate(s, acc)
    decreases |s|
  {
    if s == "" {
      assert s + rest == rest;
    } else {
      assert (s + rest)[1..] == s[1..] + rest;
      AccumulateStops(s[1..], rest, 10 * acc + (s[0] - '0') as nat);
    }
  }

  lemma {:induction false} SpacesSkipped(spaces: string, rest: string)
    requires (forall i :: 0 <= i < |spaces| ==> IsSpace(spaces[i])) && (rest == "" || !IsSpace(rest[0]))
    ensures SkipSpaces(spaces + rest) == rest
    decreases |spaces|
  {
    if spaces == "" {
      assert spaces + rest == rest;
    } else {
      assert (spaces + rest)[1..] == spaces[1..] + rest;
      SpacesSkipped(spaces[1..], rest);
    }
  }

  lemma SignedWithin(n: int, rest: string)
    requires rest == "" || !IsDigit(rest[0])
    ensures Signed(Decimal(n) + rest) == n && !IsSpace((Decimal(n) + rest)[0])
  {
    var digits := Digits(if n < 0 then -n else n);
    AccumulateStops(digits, rest, 0);
    DigitsRead(if n < 0 then -n else n);
    if n < 0 {
      assert (Decimal(n) + rest)[1..] == digits + rest;
    } else {
      assert Decimal(n) == digits && (Decimal(n) + rest)[0] == digits[0];
    }
  }

  /** Spaces before a number and what is no digit behind it do not count; beyond 64 bits it saturates, and of
      a 32 bit field only the low 32 bits are kept. */
  lemma NumberRead(spaces: string, n: int, rest: string)
    requires (forall i :: 0 <= i < |spaces| ==> IsSpace(spaces[i])) && (rest == "" || !IsDigit(rest[0]))
    ensures Atoll(spaces + Decimal(n) + rest)
         == if n > 0x7fff_ffff_ffff_ffff then 0x7fff_ffff_ffff_ffff
            else if n < -0x8000_0000_0000_0000 then -0x8000_0000_0000_0000 else n
    ensures (Atoi(spaces + Decimal(n) + rest) - Atoll(spaces + Decimal(n) + rest)) % 0x1_0000_0000 == 0
  {
    SignedWithin(n, rest);
    SpacesSkipped(spaces, Decimal(n) + rest);
    assert spaces + Decimal(n) + rest == spaces + (Decimal(n) + rest);
  }
}
