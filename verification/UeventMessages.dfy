/** Kernel uevent messages: NUL-separated records up to the first empty one, and the fields they set. */
module UeventMessages {
  import opened Wrappers
  import opened Uevents

  const NUL := '\0'

  datatype Key =
    | ActionKey | DevpathKey | SubsystemKey | DriverKey | FirmwareKey | MajorKey | MinorKey
    | PartnKey | SeqnumKey | PartnameKey | PartuuidKey | DevnameKey | ModaliasKey

  const KEYS := [
    ActionKey, DevpathKey, SubsystemKey, DriverKey, FirmwareKey, MajorKey, MinorKey,
    PartnKey, SeqnumKey, PartnameKey, PartuuidKey, DevnameKey, ModaliasKey]

  function Name(k: Key): string {
    match k
    case ActionKey => "ACTION="
    case DevpathKey => "DEVPATH="
    case SubsystemKey => "SUBSYSTEM="
    case DriverKey => "DRIVER="
    case FirmwareKey => "FIRMWARE="
    case MajorKey => "MAJOR="
    case MinorKey => "MINOR="
    case PartnKey => "PARTN="
    case SeqnumKey => "SEQNUM="
    case PartnameKey => "PARTNAME="
    case PartuuidKey => "PARTUUID="
    case DevnameKey => "DEVNAME="
    case ModaliasKey => "MODALIAS="
  }

  // Numbers, as the C library reads them

  predicate IsSpace(c: char) {
    c == ' ' || '\t' <= c <= '\r'
  }

  predicate IsDigit(c: char) {
    '0' <= c <= '9'
  }

  function SkipSpaces(s: string): string {
    if s != "" && IsSpace(s[0]) then SkipSpaces(s[1..]) else s
  }

  function Accumulate(s: string, acc: nat): nat {
    if s != "" && IsDigit(s[0]) then Accumulate(s[1..], 10 * acc + (s[0] - '0') as nat) else acc
  }

  function Signed(s: string): int {
    if s != "" && s[0] == '-' then 0 - Accumulate(s[1..], 0)
    else if s != "" && s[0] == '+' then Accumulate(s[1..], 0)
    else Accumulate(s, 0)
  }

  const MAX64 := 0x7fff_ffff_ffff_ffff
  const MIN64 := -0x8000_0000_0000_0000
  const MAX32 := 0x7fff_ffff
  const MIN32 := -0x8000_0000

  /** Out of range values saturate at 64 bits. */
  function Atoll(s: string): (v: int)
    ensures MIN64 <= v <= MAX64
  {
    var v := Signed(SkipSpaces(s));
    if v > MAX64 then MAX64 else if v < MIN64 then MIN64 else v
  }

  /** The 64 bit value cut to its low 32 bits. */
  function Atoi(s: string): (v: int)
    ensures MIN32 <= v <= MAX32
  {
    (Atoll(s) - MIN32) % 0x1_0000_0000 + MIN32
  }

  // Fields

  /** What ParseEvent sets before reading: everything but the partition uuid. */
  function Cleared(u: Uevent): Uevent {
    Uevent("", "", "", "", "", "", u.partitionUuid, "", "", -1, -1, -1, -1)
  }

  function Set(u: Uevent, k: Key, v: string): Uevent {
    match k
    case ActionKey => u.(action := v)
    case DevpathKey => u.(path := v)
    case SubsystemKey => u.(subsystem := v)
    case DriverKey => u.(driver := v)
    case FirmwareKey => u.(firmware := v)
    case MajorKey => u.(major := Atoi(v))
    case MinorKey => u.(minor := Atoi(v))
    case PartnKey => u.(partitionNum := Atoi(v))
    case SeqnumKey => u.(seqnum := Atoll(v))
    case PartnameKey => u.(partitionName := v)
    case PartuuidKey => u.(partitionUuid := v)
    case DevnameKey => u.(deviceName := v)
    case ModaliasKey => u.(modalias := v)
  }

  /** The value of one field; SameField is equality of uevents at one key. */
  datatype Field = Text(text: string) | Number(number: int)

  function Get(u: Uevent, k: Key): Field {
    match k
    case ActionKey => Text(u.action)
    case DevpathKey => Text(u.path)
    case SubsystemKey => Text(u.subsystem)
    case DriverKey => Text(u.driver)
    case FirmwareKey => Text(u.firmware)
    case MajorKey => Number(u.major)
    case MinorKey => Number(u.minor)
    case PartnKey => Number(u.partitionNum)
    case SeqnumKey => Number(u.seqnum)
    case PartnameKey => Text(u.partitionName)
    case PartuuidKey => Text(u.partitionUuid)
    case DevnameKey => Text(u.deviceName)
    case ModaliasKey => Text(u.modalias)
  }

  function Converted(k: Key, v: string): Field {
    match k
    case MajorKey => Number(Atoi(v))
    case MinorKey => Number(Atoi(v))
    case PartnKey => Number(Atoi(v))
    case SeqnumKey => Number(Atoll(v))
    case _ => Text(v)
  }

  // Records

  /** The text before the first NUL. */
  function FirstRecord(s: string): (r: string)
    ensures |r| <= |s| && NUL !in r && r == s[..|r|]
    ensures |r| < |s| ==> s[|r|] == NUL
  {
    if s == "" || s[0] == NUL then ""
    else
      var rest := FirstRecord(s[1..]);
      assert s[..|rest| + 1] == [s[0]] + s[1..][..|rest|];
      [s[0]] + rest
  }

  function AfterRecord(s: string): string {
    var r := FirstRecord(s);
    if |r| < |s| then s[|r| + 1..] else ""
  }

  /** The records before the first empty one. */
  function Records(s: string): seq<string>
    decreases |s|
  {
    if s == "" || s[0] == NUL then [] else [FirstRecord(s)] + Records(AfterRecord(s))
  }

  /** The first key in the order of the tests whose name the record starts with. */
  function Classify(record: string, keys: seq<Key>): (k: Option<Key>)
    ensures k.Some? ==> Name(k.value) <= record
    decreases |keys|
  {
    if keys == [] then None
    else if Name(keys[0]) <= record then Some(keys[0])
    else Classify(record, keys[1..])
  }

  function Applied(u: Uevent, record: string): Uevent {
    match Classify(record, KEYS)
    case None => u
    case Some(k) => Set(u, k, record[|Name(k)|..])
  }

  function Parsed(u: Uevent, records: seq<string>): Uevent
    decreases |records|
  {
    if records == [] then u else Parsed(Applied(u, records[0]), records[1..])
  }

  // What a message means, key by key

  /** The value of the last record for a key. */
  function LastValue(k: Key, records: seq<string>): Option<string>
    decreases |records|
  {
    if records == [] then None
    else
      var r := records[|records| - 1];
      if Name(k) <= r then Some(r[|Name(k)|..]) else LastValue(k, records[..|records| - 1])
  }

  lemma NameShape(k: Key)
    ensures |Name(k)| > 0 && Name(k)[|Name(k)| - 1] == '='
    ensures forall i :: 0 <= i < |Name(k)| - 1 ==> Name(k)[i] != '='
    ensures NUL !in Name(k)
  {
  }

  lemma NamesDiffer(k: Key, l: Key)
    requires Name(k) == Name(l)
    ensures k == l
  {
  }

  /** No record starts with the names of two keys. */
  lemma OneKeyPerRecord(k: Key, l: Key, record: string)
    requires Name(k) <= record && Name(l) <= record
    ensures k == l
  {
    NameShape(k);
    NameShape(l);
    var a, b := |Name(k)|, |Name(l)|;
    assert Name(k)[a - 1] == record[a - 1] && Name(l)[b - 1] == record[b - 1];
    assert forall i :: 0 <= i < a ==> Name(k)[i] == record[i];
    assert forall i :: 0 <= i < b ==> Name(l)[i] == record[i];
    assert a == b;
    assert Name(k) == record[..a] == Name(l);
    NamesDiffer(k, l);
  }

  lemma {:induction false} ClassifyFinds(record: string, keys: seq<Key>, k: Key)
    requires k in keys
    ensures Name(k) <= record <==> Classify(record, keys) == Some(k)
    decreases |keys|
  {
    if Name(keys[0]) <= record {
      if Name(k) <= record {
        OneKeyPerRecord(k, keys[0], record);
      }
    } else if k in keys[1..] {
      ClassifyFinds(record, keys[1..], k);
    }
  }

  lemma EveryKey(k: Key)
    ensures k in KEYS
  {
    var i := match k
      case ActionKey => 0 case DevpathKey => 1 case SubsystemKey => 2 case DriverKey => 3 case FirmwareKey => 4
      case MajorKey => 5 case MinorKey => 6 case PartnKey => 7 case SeqnumKey => 8 case PartnameKey => 9
      case PartuuidKey => 10 case DevnameKey => 11 case ModaliasKey => 12;
    assert KEYS[i] == k;
  }

  lemma AppliedField(u: Uevent, record: string, k: Key)
    ensures Get(Applied(u, record), k) ==
            if Name(k) <= record then Converted(k, record[|Name(k)|..]) else Get(u, k)
  {
    EveryKey(k);
    ClassifyFinds(record, KEYS, k);
    var c := Classify(record, KEYS);
    if c.Some? {
      EveryKey(c.value);
      ClassifyFinds(record, KEYS, c.value);
      SetField(u, c.value, record[|Name(c.value)|..], k);
    }
  }

  lemma SetField(u: Uevent, k: Key, v: string, l: Key)
    ensures Get(Set(u, k, v), l) == if k == l then Converted(k, v) else Get(u, l)
  {
  }

  lemma {:induction false} ParsedSnoc(u: Uevent, records: seq<string>, r: string)
    ensures Parsed(u, records + [r]) == Applied(Parsed(u, records), r)
    decreases |records|
  {
    if records == [] {
      assert records + [r] == [r];
    } else {
      assert (records + [r])[1..] == records[1..] + [r];
      ParsedSnoc(Applied(u, records[0]), records[1..], r);
    }
  }

  /** Each field has the value of the last record with its key, or what it had before. */
  lemma {:induction false} LastRecordWins(u: Uevent, records: seq<string>, k: Key)
    ensures Get(Parsed(u, records), k) ==
            var v := LastValue(k, records); if v.Some? then Converted(k, v.value) else Get(u, k)
    decreases |records|
  {
    if records == [] {
    } else {
      var before, r := records[..|records| - 1], records[|records| - 1];
      assert records == before + [r];
      ParsedSnoc(u, before, r);
      LastRecordWins(u, before, k);
      AppliedField(Parsed(u, before), r, k);
    }
  }

  /** Records, each ended by a NUL. */
  function Joined(records: seq<string>): string
    decreases |records|
  {
    if records == [] then "" else records[0] + [NUL] + Joined(records[1..])
  }

  predicate Plain(r: string) {
    r != "" && NUL !in r
  }

  lemma FirstOfJoined(r: string, rest: string)
    requires Plain(r)
    ensures FirstRecord(r + [NUL] + rest) == r && AfterRecord(r + [NUL] + rest) == rest
    ensures (r + [NUL] + rest)[0] == r[0] != NUL
  {
    var s := r + [NUL] + rest;
    var f := FirstRecord(s);
    assert forall i :: 0 <= i < |r| ==> s[i] == r[i] && r[i] in r;
    assert s[|r|] == NUL;
    assert forall i :: 0 <= i < |f| ==> s[i] == f[i] && f[i] in f;
    assert |f| == |r|;
    assert f == s[..|r|] == r;
    assert s[|r| + 1..] == rest;
  }

  /** Joining plain records and splitting the message again gives the records. */
  lemma {:induction false} RecordsOfJoined(records: seq<string>)
    requires forall i :: 0 <= i < |records| ==> Plain(records[i])
    ensures Records(Joined(records)) == records
    decreases |records|
  {
    if records == [] {
    } else {
      RecordsOfJoined(records[1..]);
      FirstOfJoined(records[0], Joined(records[1..]));
    }
  }

  /** With one more NUL, the message is the records followed by nothing or by an empty record. */
  predicate SplitsInto(s: string, records: seq<string>) {
    && (forall i :: 0 <= i < |records| ==> Plain(records[i]))
    && Joined(records) <= s + [NUL]
    && var tail := (s + [NUL])[|Joined(records)|..]; tail == "" || tail[0] == NUL
  }

  lemma SplitCons(r: string, after: string, records: seq<string>)
    requires Plain(r) && SplitsInto(after, records)
    ensures SplitsInto(r + [NUL] + after, [r] + records)
  {
    assert ([r] + records)[1..] == records;
    JoinedTail(r + [NUL], after + [NUL], Joined(records));
    assert r + [NUL] + after + [NUL] == r + [NUL] + (after + [NUL]);
  }

  lemma SplitLast(r: string)
    requires Plain(r)
    ensures SplitsInto(r, [r])
  {
    assert Joined([r][1..]) == "";
    assert r + [NUL] + "" == r + [NUL];
  }

  lemma SplitNone(s: string)
    requires s == "" || s[0] == NUL
    ensures SplitsInto(s, [])
  {
    assert (s + [NUL])[0..] == s + [NUL];
  }

  lemma Cut(s: string, m: nat)
    requires m < |s|
    ensures s == s[..m] + [s[m]] + s[m + 1..]
  {
  }

  lemma RecordAndRest(s: string, r: string, after: string)
    requires r == FirstRecord(s) && after == AfterRecord(s)
    ensures |r| < |s| ==> s == r + [NUL] + after
    ensures |r| == |s| ==> s == r && Records(after) == []
  {
    if |r| < |s| {
      Cut(s, |r|);
    }
  }

  /** The records of a message are its pieces between NULs up to the first empty one. */
  lemma {:induction false} MessageIsItsRecords(s: string)
    ensures SplitsInto(s, Records(s))
    decreases |s|
  {
    if s == "" || s[0] == NUL {
      SplitNone(s);
    } else {
      var r, after := FirstRecord(s), AfterRecord(s);
      RecordAndRest(s, r, after);
      if |r| < |s| {
        MessageIsItsRecords(after);
        SplitCons(r, after, Records(after));
      } else {
        SplitLast(s);
      }
    }
  }

  lemma JoinedTail(head: string, rest: string, joined: string)
    requires joined <= rest
    ensures head + joined <= head + rest
    ensures (head + rest)[|head + joined|..] == rest[|joined|..]
  {
    assert rest == joined + rest[|joined|..];
    assert head + rest == head + joined + rest[|joined|..];
  }

  function Default(before: Uevent, k: Key): Field {
    match k
    case MajorKey => Number(-1)
    case MinorKey => Number(-1)
    case PartnKey => Number(-1)
    case SeqnumKey => Number(-1)
    case PartuuidKey => Text(before.partitionUuid)
    case _ => Text("")
  }

  /** What ParseEvent leaves in each field: the last record with its key counts, and without one the default,
      which for the partition uuid alone is whatever the uevent held before. */
  lemma MessageFields(before: Uevent, s: string, k: Key)
    ensures Get(Parsed(Cleared(before), Records(s)), k) ==
            var v := LastValue(k, Records(s)); if v.Some? then Converted(k, v.value) else Default(before, k)
  {
    LastRecordWins(Cleared(before), Records(s), k);
  }
}
