/** Reading one uevent: the receive buffer with its two terminators, and ParseEvent walking through it. */
module UeventListeners {
  import opened Wrappers
  import opened Uevents
  import opened UeventMessages

  const UEVENT_MSG_LEN := 8192

  datatype ReadUeventResult = kSuccess | kFailed | kInvalid

  /** The n bytes of a message, ended by two NULs that are not part of it. */
  predicate Terminated(msg: array<char>, n: nat)
    reads msg
  {
    n + 2 <= msg.Length && msg[n] == NUL && msg[n + 1] == NUL
  }

  /** What is left of the message from a position on; nothing from the second terminator on. */
  function Left(msg: array<char>, n: nat, pos: nat): string
    requires n <= msg.Length && pos <= n + 1
    reads msg
  {
    if pos <= n then msg[pos..n] else ""
  }

  class UeventBox {
    var uevent: Uevent

    constructor (u: Uevent)
      ensures uevent == u
    {
      uevent := u;
    }
  }

  /** strncmp(msg, key, strlen(key)) == 0, which stops at the end of the record. */
  method StartsWith(msg: array<char>, n: nat, pos: nat, key: string) returns (hit: bool)
    requires Terminated(msg, n) && pos <= n && NUL !in key
    ensures hit == (key <= FirstRecord(msg[pos..n]))
  {
    var i := 0;
    ghost var record := FirstRecord(msg[pos..n]);
    assert |record| < |msg[pos..n]| ==> msg[pos..n][|record|] == NUL;
    while i < |key|
      invariant 0 <= i <= |key| && i <= |record| && key[..i] == record[..i]
    {
      assert pos + i <= n + 1;
      assert i < |record| ==> msg[pos + i] == record[i];
      assert i == |record| ==> msg[pos + i] == NUL;
      assert key[i] in key;
      if msg[pos + i] != key[i] {
        assert i < |record| ==> record[i] != key[i];
        return false;
      }
      i := i + 1;
    }
    return true;
  }

  /** The record from a position inside it to its end, as assigning a C string copies it. */
  method CopyString(msg: array<char>, n: nat, pos: nat) returns (s: string)
    requires Terminated(msg, n) && pos <= n
    ensures s == FirstRecord(msg[pos..n])
  {
    s := "";
    var i := pos;
    while msg[i] != NUL
      invariant pos <= i <= n && s == msg[pos..i] && NUL !in s
      decreases n - i
    {
      s := s + [msg[i]];
      i := i + 1;
    }
    FirstRecordIs(msg[pos..n], s);
  }

  lemma FirstRecordIs(s: string, r: string)
    requires |r| <= |s| && r == s[..|r|] && NUL !in r && (|r| < |s| ==> s[|r|] == NUL)
    ensures FirstRecord(s) == r
  {
    var f := FirstRecord(s);
    assert forall i :: 0 <= i < |r| ==> s[i] == r[i] && r[i] in r;
    assert forall i :: 0 <= i < |f| ==> s[i] == f[i] && f[i] in f;
    assert |f| == |r|;
  }

  /** One test; when it succeeds it is the first to do so. */
  method Tests(msg: array<char>, n: nat, pos: nat, k: Key) returns (hit: bool)
    requires Terminated(msg, n) && pos <= n
    ensures hit == (Classify(FirstRecord(msg[pos..n]), KEYS) == Some(k))
  {
    NameShape(k);
    EveryKey(k);
    ClassifyFinds(FirstRecord(msg[pos..n]), KEYS, k);
    hit := StartsWith(msg, n, pos, Name(k));
  }

  /** The chain of tests. */
  method KeyAt(msg: array<char>, n: nat, pos: nat) returns (k: Option<Key>)
    requires Terminated(msg, n) && pos <= n
    ensures k == Classify(FirstRecord(msg[pos..n]), KEYS)
  {
    var hit := Tests(msg, n, pos, ActionKey);
    if hit {
      return Some(ActionKey);
    }
    hit := Tests(msg, n, pos, DevpathKey);
    if hit {
      return Some(DevpathKey);
    }
    hit := Tests(msg, n, pos, SubsystemKey);
    if hit {
      return Some(SubsystemKey);
    }
    hit := Tests(msg, n, pos, DriverKey);
    if hit {
      return Some(DriverKey);
    }
    hit := Tests(msg, n, pos, FirmwareKey);
    if hit {
      return Some(FirmwareKey);
    }
    hit := Tests(msg, n, pos, MajorKey);
    if hit {
      return Some(MajorKey);
    }
    hit := Tests(msg, n, pos, MinorKey);
    if hit {
      return Some(MinorKey);
    }
    hit := Tests(msg, n, pos, PartnKey);
    if hit {
      return Some(PartnKey);
    }
    hit := Tests(msg, n, pos, SeqnumKey);
    if hit {
      return Some(SeqnumKey);
    }
    hit := Tests(msg, n, pos, PartnameKey);
    if hit {
      return Some(PartnameKey);
    }
    hit := Tests(msg, n, pos, PartuuidKey);
    if hit {
      return Some(PartuuidKey);
    }
    hit := Tests(msg, n, pos, DevnameKey);
    if hit {
      return Some(DevnameKey);
    }
    hit := Tests(msg, n, pos, ModaliasKey);
    if hit {
      return Some(ModaliasKey);
    }
    return None;
  }

  lemma RecordTail(s: string, j: nat)
    requires j <= |FirstRecord(s)|
    ensures FirstRecord(s[j..]) == FirstRecord(s)[j..]
    ensures AfterRecord(s[j..]) == AfterRecord(s)
  {
    var r := FirstRecord(s);
    assert forall c :: c in r[j..] ==> c in r;
    FirstRecordIs(s[j..], r[j..]);
  }

  /** Past the next NUL. */
  method SkipRecord(msg: array<char>, n: nat, pos: nat) returns (next: nat)
    requires Terminated(msg, n) && pos <= n
    ensures pos < next <= n + 1 && Left(msg, n, next) == AfterRecord(msg[pos..n])
  {
    var i := pos;
    while msg[i] != NUL
      invariant pos <= i <= n && NUL !in msg[pos..i]
      decreases n - i
    {
      i := i + 1;
    }
    next := i + 1;
    FirstRecordIs(msg[pos..n], msg[pos..i]);
  }

  /** The body of the loop. */
  method ParseRecord(msg: array<char>, n: nat, pos: nat, box: UeventBox) returns (next: nat)
    requires Terminated(msg, n) && pos <= n
    modifies box
    ensures box.uevent == Applied(old(box.uevent), FirstRecord(msg[pos..n]))
    ensures pos < next <= n + 1 && Left(msg, n, next) == AfterRecord(msg[pos..n])
  {
    ghost var rest := msg[pos..n];
    var k := KeyAt(msg, n, pos);
    next := pos;
    if k.Some? {
      next := pos + |Name(k.value)|;
      RecordTail(rest, |Name(k.value)|);
      assert rest[|Name(k.value)|..] == msg[next..n];
      var value := CopyString(msg, n, next);
      box.uevent := Set(box.uevent, k.value, value);
    }
    next := SkipRecord(msg, n, next);
  }

  /** Never looks beyond the second terminator. */
  method ParseEvent(msg: array<char>, n: nat, box: UeventBox)
    requires Terminated(msg, n)
    modifies box
    ensures box.uevent == Parsed(Cleared(old(box.uevent)), Records(msg[..n]))
  {
    box.uevent := Cleared(box.uevent);
    var pos := 0;
    assert msg[0..n] == msg[..n];
    while msg[pos] != NUL
      invariant pos <= n + 1
      invariant Parsed(box.uevent, Records(Left(msg, n, pos))) == Parsed(Cleared(old(box.uevent)), Records(msg[..n]))
      decreases n + 1 - pos
    {
      pos := ParseRecord(msg, n, pos, box);
    }
  }

  /** What the socket delivered: n bytes, or an error or nothing. */
  method ReadUevent(n: int, received: string, box: UeventBox) returns (r: ReadUeventResult)
    requires n <= UEVENT_MSG_LEN && (n > 0 ==> |received| == n)
    modifies box
    ensures r == if n <= 0 then kFailed else if n >= UEVENT_MSG_LEN then kInvalid else kSuccess
    ensures box.uevent == if r == kSuccess then Parsed(Cleared(old(box.uevent)), Records(received)) else old(box.uevent)
  {
    if n <= 0 {
      return kFailed;
    }
    var msg := new char[UEVENT_MSG_LEN + 2](_ => NUL);
    forall i | 0 <= i < n {
      msg[i] := received[i];
    }
    if n >= UEVENT_MSG_LEN {
      return kInvalid;
    }
    msg[n] := NUL;
    msg[n + 1] := NUL;
    ParseEvent(msg, n, box);
    assert msg[..n] == received;
    return kSuccess;
  }
}
