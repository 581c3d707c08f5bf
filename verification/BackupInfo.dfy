/**
 The text that describes a backup: the memory server prints it into `<backup>.info`
 with one "attribute: value" line per field, and get_backup_info parses it again.

 Strings are C strings.  The time of the backup is a parameter.
 */
module BackupInfo {
  const BACKUP_META_SIZE := 4096
  const INT_MAX := 0x7FFF_FFFF
  const LONG_MAX := 0x7FFF_FFFF_FFFF_FFFF

  datatype Option<T> = None | Some(value: T)

  /** What the writer is given. */
  datatype Backup = Backup(bname: string, dname: string, size: nat, time: string, uid: nat, gid: nat, mode: nat)

  /** Fam_Backup_Info as the parser fills it. */
  datatype Info = Info(dname: string, size: int, time: string, uid: int, gid: int, mode: int)

  const UNSET := Info("", -1, "", -1, -1, -1)

  datatype Result = Parsed(info: Info) | BackupMetadataInvalid

  // -------------------------------------------------------------------------
  // Decimal numbers

  function Digit(d: nat): char
    requires d < 10
  {
    '0' + d as char
  }

  predicate IsDigit(c: char) { '0' <= c <= '9' }

  function DigitValue(c: char): nat
    requires IsDigit(c)
  {
    (c - '0') as nat
  }

  /** %lu and %u. */
  function Decimal(n: nat): (r: string)
    ensures r != [] && forall i :: 0 <= i < |r| ==> IsDigit(r[i])
  {
    if n < 10 then [Digit(n)] else Decimal(n / 10) + [Digit(n % 10)]
  }

  predicate AllDigits(s: string) { forall i :: 0 <= i < |s| ==> IsDigit(s[i]) }

  function Value(s: string): nat
    requires AllDigits(s)
  {
    if s == [] then 0 else Value(s[..|s| - 1]) * 10 + DigitValue(s[|s| - 1])
  }

  lemma {:induction false} ValueOfDecimal(n: nat)
    ensures AllDigits(Decimal(n)) && Value(Decimal(n)) == n
  {
    if n < 10 {
      assert Decimal(n)[..0] == [];
    } else {
      ValueOfDecimal(n / 10);
      assert Decimal(n)[..|Decimal(n)| - 1] == Decimal(n / 10);
    }
  }

  // -------------------------------------------------------------------------
  // std::stol and std::stoi, base 10

  predicate IsSpace(c: char) { c == ' ' || '\t' <= c <= '\r' }

  function SkipSpace(s: string): string {
    if s != [] && IsSpace(s[0]) then SkipSpace(s[1..]) else s
  }

  function DigitPrefix(s: string): (r: string)
    ensures AllDigits(r)
  {
    if s != [] && IsDigit(s[0]) then [s[0]] + DigitPrefix(s[1..]) else []
  }

  /** None stands for invalid_argument and out_of_range; characters after the digits are ignored. */
  function ToInteger(s: string, max: nat): Option<int> {
    var t := SkipSpace(s);
    var negative := t != [] && t[0] == '-';
    var digits := DigitPrefix(if t != [] && (t[0] == '-' || t[0] == '+') then t[1..] else t);
    var v: int := if negative then 0 - Value(digits) else Value(digits);
    if digits == [] || v > max || v < 0 - max - 1 then None else Some(v)
  }

  lemma {:induction false} DigitPrefixOfDigits(s: string)
    requires AllDigits(s)
    ensures DigitPrefix(s) == s
  {
    if s != [] {
      DigitPrefixOfDigits(s[1..]);
    }
  }

  lemma ReadDigits(s: string, max: nat)
    requires AllDigits(s)
    ensures ToInteger(" " + s, max) == if s != [] && Value(s) <= max then Some(Value(s)) else None
  {
    var t := " " + s;
    assert t[1..] == s;
    assert SkipSpace(t) == s;
    DigitPrefixOfDigits(s);
  }

  /** A printed number is read back exactly if it is in the reader's signed range. */
  lemma ReadBack(n: nat, max: nat)
    ensures ToInteger(" " + Decimal(n), max) == if n <= max then Some(n) else None
  {
    ReadDigits(Decimal(n), max);
    ValueOfDecimal(n);
  }

  /** A printed number cut short reads as a smaller one. */
  lemma {:induction false} PrefixSmaller(n: nat, k: nat)
    requires 0 < k < |Decimal(n)|
    ensures AllDigits(Decimal(n)[..k]) && Value(Decimal(n)[..k]) < n
  {
    var d := Decimal(n / 10);
    if k == |d| {
      assert Decimal(n)[..k] == d;
      ValueOfDecimal(n / 10);
    } else {
      assert Decimal(n)[..k] == d[..k];
      PrefixSmaller(n / 10, k);
    }
  }

  // -------------------------------------------------------------------------
  // The parser

  /** The first position of c, or the length. */
  function Find(s: string, c: char): (r: nat)
    ensures r <= |s| && c !in s[..r] && (r < |s| ==> s[r] == c)
  {
    if s == [] || s[0] == c then 0
    else
      var r := Find(s[1..], c) + 1;
      assert s[..r] == [s[0]] + s[1..][..r - 1];
      r
  }

  /** What getline yields, one token after the other. */
  function Lines(text: string): seq<string> {
    if text == [] then []
    else
      var k := Find(text, '\n');
      if k == |text| then [text] else [text[..k]] + Lines(text[k + 1..])
  }

  function Attribute(token: string): string {
    var pos := Find(token, ':');
    if pos < |token| then token[..pos] else ""
  }

  function ValueText(token: string): string {
    var pos := Find(token, ':');
    if pos < |token| then token[pos + 1..] else ""
  }

  /** One line fills at most one field. */
  function Fill(info: Info, token: string): Option<Info> {
    var a, v := Attribute(token), ValueText(token);
    if a == "dataitemName" then Some(info.(dname := v))
    else if a == "dataitemSize" then
      var n := ToInteger(v, LONG_MAX);
      if n.None? then None else Some(info.(size := n.value))
    else if a == "BackupTime" then Some(info.(time := v))
    else if a == "uid" then
      var n := ToInteger(v, INT_MAX);
      if n.None? then None else Some(info.(uid := n.value))
    else if a == "gid" then
      var n := ToInteger(v, INT_MAX);
      if n.None? then None else Some(info.(gid := n.value))
    else if a == "mode" then
      var n := ToInteger(v, INT_MAX);
      if n.None? then None else Some(info.(mode := n.value))
    else Some(info)
  }

  function FillAll(info: Info, tokens: seq<string>): Result
    decreases |tokens|
  {
    if tokens == [] then Parsed(info)
    else
      match Fill(info, tokens[0])
      case None => BackupMetadataInvalid
      case Some(next) => FillAll(next, tokens[1..])
  }

  function Parse(text: string): Result { FillAll(UNSET, Lines(text)) }

  /** The body of get_backup_info's loop; None stands for an exception caught there. */
  method FillFrom(info: Info, token: string) returns (r: Option<Info>)
    ensures r == Fill(info, token)
  {
    var pos := Find(token, ':');
    var attribute, value := "", "";
    if pos < |token| {
      attribute, value := token[..pos], token[pos + 1..];
    }
    r := Some(info);
    if attribute == "dataitemName" {
      r := Some(info.(dname := value));
    }
    if attribute == "dataitemSize" {
      var n := ToInteger(value, LONG_MAX);
      r := if n.None? then None else Some(info.(size := n.value));
    }
    if attribute == "BackupTime" {
      r := Some(info.(time := value));
    }
    if attribute == "uid" {
      var n := ToInteger(value, INT_MAX);
      r := if n.None? then None else Some(info.(uid := n.value));
    }
    if attribute == "gid" {
      var n := ToInteger(value, INT_MAX);
      r := if n.None? then None else Some(info.(gid := n.value));
    }
    if attribute == "mode" {
      var n := ToInteger(value, INT_MAX);
      r := if n.None? then None else Some(info.(mode := n.value));
    }
  }

  /** What is left after the first line. */
  function Rest(text: string): (r: string)
    ensures text != [] ==> |r| < |text|
  {
    var k := Find(text, '\n');
    if k < |text| then text[k + 1..] else []
  }

  function FillThen(next: Option<Info>, tokens: seq<string>): Result {
    if next.None? then BackupMetadataInvalid else FillAll(next.value, tokens)
  }

  lemma FirstLine(text: string)
    requires text != []
    ensures Lines(text) == [text[..Find(text, '\n')]] + Lines(Rest(text))
  {
    var k := Find(text, '\n');
    if k == |text| { assert text[..k] == text; }
  }

  lemma FillFirst(info: Info, token: string, tokens: seq<string>)
    ensures FillAll(info, [token] + tokens) == FillThen(Fill(info, token), tokens)
  {
    assert ([token] + tokens)[1..] == tokens;
  }

  method GetBackupInfo(text: string) returns (r: Result)
    ensures r == Parse(text)
  {
    var info, rest := UNSET, text;
    while rest != []
      invariant FillAll(info, Lines(rest)) == Parse(text)
      decreases |rest|
    {
      var k := Find(rest, '\n');
      FirstLine(rest);
      FillFirst(info, rest[..k], Lines(Rest(rest)));
      var filled := FillFrom(info, rest[..k]);
      if filled.None? {
        return BackupMetadataInvalid;
      }
      info := filled.value;
      rest := Rest(rest);
    }
    return Parsed(info);
  }

  // -------------------------------------------------------------------------
  // The writer

  function Field(key: string, value: string): string { key + ": " + value }

  function Fields(b: Backup): seq<string> { [Field("backupName", b.bname)] + LaterFields(b) }

  function LaterFields(b: Backup): seq<string> {
    [Field("dataitemName", b.dname)] + [Field("dataitemSize", Decimal(b.size)), Field("BackupTime", b.time)]
      + IdFields(b)
  }

  function IdFields(b: Backup): seq<string> {
    [Field("uid", Decimal(b.uid)), Field("gid", Decimal(b.gid)), Field("mode", Decimal(b.mode))]
  }

  function Unlines(tokens: seq<string>): string {
    if tokens == [] then "" else tokens[0] + "\n" + Unlines(tokens[1..])
  }

  function Text(b: Backup): string { Unlines(Fields(b)) }

  /** snprintf keeps what fits into the buffer beside the terminating zero. */
  function Written(b: Backup): string {
    if |Text(b)| < BACKUP_META_SIZE then Text(b) else Text(b)[..BACKUP_META_SIZE - 1]
  }

  /** What a reader should get: the same values, strings with the leading blank. */
  function AsRead(b: Backup): Info { Info(" " + b.dname, b.size, " " + b.time, b.uid, b.gid, b.mode) }

  predicate InRange(b: Backup) { b.size <= LONG_MAX && b.uid <= INT_MAX && b.gid <= INT_MAX && b.mode <= INT_MAX }

  // -------------------------------------------------------------------------
  // Lines of a text cut off anywhere

  predicate OneLine(s: string) { '\n' !in s }

  predicate OneLiners(tokens: seq<string>) { forall i :: 0 <= i < |tokens| ==> OneLine(tokens[i]) }

  lemma {:induction false} FindAfter(a: string, c: char, rest: string)
    requires c !in a
    ensures Find(a + [c] + rest, c) == |a|
  {
    if a != [] {
      FindAfter(a[1..], c, rest);
      assert (a + [c] + rest)[1..] == a[1..] + [c] + rest;
    }
  }

  lemma FindNone(a: string, c: char)
    requires c !in a
    ensures Find(a, c) == |a|
  {
  }

  predicate Inside(tokens: seq<string>, j: nat, m: nat) {
    j <= |tokens| && m <= if j < |tokens| then |tokens[j]| else 0
  }

  /** j whole lines and the first m characters of the next, if there are any. */
  function Prefix(tokens: seq<string>, j: nat, m: nat): seq<string>
    requires Inside(tokens, j, m)
  {
    if m == 0 then tokens[..j] else tokens[..j] + [tokens[j][..m]]
  }

  lemma PrefixShift(first: string, rest: seq<string>, j: nat, m: nat)
    requires Inside(rest, j, m)
    ensures Inside([first] + rest, j + 1, m)
    ensures Prefix([first] + rest, j + 1, m) == [first] + Prefix(rest, j, m)
  {
    var tokens := [first] + rest;
    assert tokens[..j + 1] == [first] + rest[..j];
    if m > 0 { assert tokens[j + 1] == rest[j]; }
  }

  /** The first c characters of a text are such a prefix of its lines: all of it at the end,
      all but an empty rest one character before, less if cut earlier. */
  lemma {:induction false} CutLines(tokens: seq<string>, c: nat) returns (j: nat, m: nat)
    requires OneLiners(tokens) && c <= |Unlines(tokens)|
    ensures Inside(tokens, j, m) && Lines(Unlines(tokens)[..c]) == Prefix(tokens, j, m)
    ensures c == |Unlines(tokens)| ==> j == |tokens|
    ensures c + 1 < |Unlines(tokens)| ==> j < |tokens| && (j == |tokens| - 1 ==> m < |tokens[j]|)
    ensures c + 1 == |Unlines(tokens)| ==> j == |tokens| - 1 && m == |tokens[j]|
  {
    if tokens == [] {
      j, m := 0, 0;
    } else {
      var first, rest := tokens[0], tokens[1..];
      assert tokens == [first] + rest;
      UnlinesFirst(first, rest);
      if c <= |first| {
        j, m := 0, c;
        CutWithin(first, Unlines(rest), c);
      } else {
        j, m := CutLines(rest, c - |first| - 1);
        CutLater(first, rest, c, j, m);
        j := j + 1;
      }
    }
  }

  lemma CutLater(first: string, rest: seq<string>, c: nat, j: nat, m: nat)
    requires OneLine(first) && |first| < c <= |first| + 1 + |Unlines(rest)| && Inside(rest, j, m)
    requires Lines(Unlines(rest)[..c - |first| - 1]) == Prefix(rest, j, m)
    ensures Inside([first] + rest, j + 1, m)
    ensures Lines((first + "\n" + Unlines(rest))[..c]) == Prefix([first] + rest, j + 1, m)
  {
    CutFirst(first, Unlines(rest), c);
    PrefixShift(first, rest, j, m);
  }

  lemma CutWithin(first: string, rest: string, c: nat)
    requires OneLine(first) && c <= |first|
    ensures Lines((first + "\n" + rest)[..c]) == if c == 0 then [] else [first[..c]]
  {
    var cut := (first + "\n" + rest)[..c];
    assert cut == first[..c];
    FindNone(cut, '\n');
  }

  lemma CutFirst(first: string, rest: string, c: nat)
    requires OneLine(first) && |first| < c <= |first| + 1 + |rest|
    ensures Lines((first + "\n" + rest)[..c]) == [first] + Lines(rest[..c - |first| - 1])
  {
    var cut, tail := (first + "\n" + rest)[..c], rest[..c - |first| - 1];
    assert cut == first + ['\n'] + tail;
    FindAfter(first, '\n', tail);
    assert cut[..|first|] == first && cut[|first| + 1..] == tail;
  }

  // -------------------------------------------------------------------------
  // Reading the fields back

  lemma FieldParts(key: string, value: string)
    requires ':' !in key
    ensures Attribute(Field(key, value)) == key && ValueText(Field(key, value)) == " " + value
  {
    var f := Field(key, value);
    assert f == key + [':'] + (" " + value);
    FindAfter(key, ':', " " + value);
  }

  lemma Keys()
    ensures ':' !in "backupName" && ':' !in "dataitemName" && ':' !in "dataitemSize" && ':' !in "BackupTime"
    ensures ':' !in "uid" && ':' !in "gid" && ':' !in "mode"
    ensures OneLine("backupName") && OneLine("dataitemName") && OneLine("dataitemSize") && OneLine("BackupTime")
    ensures OneLine("uid") && OneLine("gid") && OneLine("mode")
  {
  }

  lemma FillText(info: Info, value: string)
    ensures Fill(info, Field("backupName", value)) == Some(info)
    ensures Fill(info, Field("dataitemName", value)) == Some(info.(dname := " " + value))
    ensures Fill(info, Field("BackupTime", value)) == Some(info.(time := " " + value))
  {
    Keys();
    FieldParts("backupName", value);
    FieldParts("dataitemName", value);
    FieldParts("BackupTime", value);
  }

  lemma FillSize(info: Info, n: nat)
    ensures Fill(info, Field("dataitemSize", Decimal(n))) == if n <= LONG_MAX then Some(info.(size := n)) else None
  {
    Keys();
    FieldParts("dataitemSize", Decimal(n));
    ReadBack(n, LONG_MAX);
  }

  lemma FillId(info: Info, n: nat)
    ensures Fill(info, Field("uid", Decimal(n))) == if n <= INT_MAX then Some(info.(uid := n)) else None
    ensures Fill(info, Field("gid", Decimal(n))) == if n <= INT_MAX then Some(info.(gid := n)) else None
    ensures Fill(info, Field("mode", Decimal(n))) == if n <= INT_MAX then Some(info.(mode := n)) else None
  {
    Keys();
    FieldParts("uid", Decimal(n));
    FieldParts("gid", Decimal(n));
    FieldParts("mode", Decimal(n));
    ReadBack(n, INT_MAX);
  }

  lemma {:induction false} FillLast(info: Info, tokens: seq<string>, last: string)
    ensures FillAll(info, tokens + [last]) ==
      if FillAll(info, tokens).Parsed? then FillThen(Fill(FillAll(info, tokens).info, last), [])
      else BackupMetadataInvalid
    decreases |tokens|
  {
    if tokens == [] {
      FillFirst(info, last, []);
      assert tokens + [last] == [last] + [];
    } else {
      var next := Fill(info, tokens[0]);
      FillFirst(info, tokens[0], tokens[1..]);
      FillFirst(info, tokens[0], tokens[1..] + [last]);
      assert tokens == [tokens[0]] + tokens[1..];
      assert tokens + [last] == [tokens[0]] + (tokens[1..] + [last]);
      if next.Some? { FillLast(next.value, tokens[1..], last); }
    }
  }

  lemma FillTwo(info: Info, f: string, mid: Info, g: string, rest: seq<string>)
    requires Fill(info, f) == Some(mid)
    ensures FillAll(info, [f, g] + rest) == FillThen(Fill(mid, g), rest)
  {
    ConsTwo(f, g, rest);
    FillFirst(info, f, [g] + rest);
    FillFirst(mid, g, rest);
  }

  lemma ConsTwo(f: string, g: string, rest: seq<string>)
    ensures [f, g] + rest == [f] + ([g] + rest)
  {
  }

  lemma FillIds(info: Info, uid: nat, gid: nat, mode: nat)
    ensures FillAll(info, [Field("uid", Decimal(uid)), Field("gid", Decimal(gid)), Field("mode", Decimal(mode))]) ==
      if uid <= INT_MAX && gid <= INT_MAX && mode <= INT_MAX then Parsed(info.(uid := uid, gid := gid, mode := mode))
      else BackupMetadataInvalid
  {
    var f, g, h := Field("uid", Decimal(uid)), Field("gid", Decimal(gid)), Field("mode", Decimal(mode));
    FillId(info, uid);
    FillFirst(info, f, [g, h]);
    assert [f, g, h] == [f] + [g, h];
    if uid <= INT_MAX { FillGidAndMode(info.(uid := uid), gid, mode); }
  }

  lemma FillGidAndMode(info: Info, gid: nat, mode: nat)
    ensures FillAll(info, [Field("gid", Decimal(gid)), Field("mode", Decimal(mode))]) ==
      if gid <= INT_MAX && mode <= INT_MAX then Parsed(info.(gid := gid, mode := mode)) else BackupMetadataInvalid
  {
    var g, h := Field("gid", Decimal(gid)), Field("mode", Decimal(mode));
    FillId(info, gid);
    FillFirst(info, g, [h]);
    assert [g, h] == [g] + [h];
    if gid <= INT_MAX { FillMode(info.(gid := gid), mode); }
  }

  lemma FillMode(info: Info, mode: nat)
    ensures FillAll(info, [Field("mode", Decimal(mode))]) ==
      if mode <= INT_MAX then Parsed(info.(mode := mode)) else BackupMetadataInvalid
  {
    var h := Field("mode", Decimal(mode));
    FillId(info, mode);
    FillFirst(info, h, []);
    assert [h] == [h] + [];
  }

  lemma FillSizeAndTime(info: Info, size: nat, time: string, rest: seq<string>)
    ensures FillAll(info, [Field("dataitemSize", Decimal(size)), Field("BackupTime", time)] + rest) ==
      if size <= LONG_MAX then FillAll(info.(size := size, time := " " + time), rest) else BackupMetadataInvalid
  {
    var f, g, mid := Field("dataitemSize", Decimal(size)), Field("BackupTime", time), info.(size := size);
    FillSize(info, size);
    if size <= LONG_MAX {
      FillText(mid, time);
      FillTwo(info, f, mid, g, rest);
    } else {
      ConsTwo(f, g, rest);
      FillFirst(info, f, [g] + rest);
    }
  }

  /** The six printed lines after the backup's name give back what was printed exactly if the numbers
      are in signed range, whatever was read before them. */
  lemma FillFields(info: Info, b: Backup)
    ensures FillAll(info, LaterFields(b)) == if InRange(b) then Parsed(AsRead(b)) else BackupMetadataInvalid
  {
    var named, ids := info.(dname := " " + b.dname), IdFields(b);
    var rest := [Field("dataitemSize", Decimal(b.size)), Field("BackupTime", b.time)] + ids;
    assert LaterFields(b) == [Field("dataitemName", b.dname)] + rest;
    FillName(info, b.dname, rest);
    FillSizeAndTime(named, b.size, b.time, ids);
    FillIds(named.(size := b.size, time := " " + b.time), b.uid, b.gid, b.mode);
  }

  lemma FillName(info: Info, dname: string, rest: seq<string>)
    ensures FillAll(info, [Field("dataitemName", dname)] + rest) == FillAll(info.(dname := " " + dname), rest)
  {
    FillText(info, dname);
    FillFirst(info, Field("dataitemName", dname), rest);
  }

  function Continue(r: Result, rest: seq<string>): Result {
    if r.Parsed? then FillAll(r.info, rest) else BackupMetadataInvalid
  }

  lemma {:induction false} FillPrefix(info: Info, a: seq<string>, rest: seq<string>)
    ensures FillAll(info, a + rest) == Continue(FillAll(info, a), rest)
    decreases |a|, 1
  {
    if a == [] {
      assert a + rest == rest;
    } else {
      assert a == [a[0]] + a[1..];
      ConsPrefix(info, a[0], a[1..], rest);
    }
  }

  lemma {:induction false} ConsPrefix(info: Info, token: string, tail: seq<string>, rest: seq<string>)
    ensures FillAll(info, [token] + tail + rest) == Continue(FillAll(info, [token] + tail), rest)
    decreases |tail|, 3
  {
    assert [token] + tail + rest == [token] + (tail + rest);
    FillFirst(info, token, tail);
    FillFirst(info, token, tail + rest);
    ThenPrefix(Fill(info, token), tail, rest);
  }

  lemma {:induction false} ThenPrefix(next: Option<Info>, a: seq<string>, rest: seq<string>)
    ensures FillThen(next, a + rest) == Continue(FillThen(next, a), rest)
    decreases |a|, 2
  {
    if next.Some? { FillPrefix(next.value, a, rest); }
  }

  /** A line is rejected or not whatever was read before it. */
  lemma FillEither(info: Info, token: string)
    ensures Fill(info, token).Some? <==> Fill(UNSET, token).Some?
  {
  }

  lemma {:induction false} AllReadable(info: Info, tokens: seq<string>)
    ensures FillAll(info, tokens).Parsed? <==> forall i :: 0 <= i < |tokens| ==> Fill(UNSET, tokens[i]).Some?
    decreases |tokens|
  {
    if tokens != [] {
      FillEither(info, tokens[0]);
      if Fill(info, tokens[0]).Some? { AllReadable(Fill(info, tokens[0]).value, tokens[1..]); }
    }
  }

  // -------------------------------------------------------------------------
  // The last line wins

  /** The value of the last line with that attribute. */
  function Last(tokens: seq<string>, key: string): Option<string>
    decreases |tokens|
  {
    if tokens == [] then None
    else
      var n := |tokens| - 1;
      if Attribute(tokens[n]) == key then Some(ValueText(tokens[n])) else Last(tokens[..n], key)
  }

  function TextOr(v: Option<string>, default: string): string { if v.Some? then v.value else default }

  function NumberOr(v: Option<string>, max: nat, default: int): int {
    if v.Some? && ToInteger(v.value, max).Some? then ToInteger(v.value, max).value else default
  }

  function Gathered(tokens: seq<string>): Info {
    Info(TextOr(Last(tokens, "dataitemName"), UNSET.dname),
         NumberOr(Last(tokens, "dataitemSize"), LONG_MAX, UNSET.size),
         TextOr(Last(tokens, "BackupTime"), UNSET.time), NumberOr(Last(tokens, "uid"), INT_MAX, UNSET.uid),
         NumberOr(Last(tokens, "gid"), INT_MAX, UNSET.gid), NumberOr(Last(tokens, "mode"), INT_MAX, UNSET.mode))
  }

  ghost predicate Readable(tokens: seq<string>) {
    forall i :: 0 <= i < |tokens| ==> Fill(UNSET, tokens[i]).Some?
  }

  /** Appending a line that can be read changes what is gathered as reading that line does. */
  lemma GatherLine(tokens: seq<string>, last: string)
    requires Fill(UNSET, last).Some?
    ensures Fill(Gathered(tokens), last) == Some(Gathered(tokens + [last]))
  {
    assert (tokens + [last])[..|tokens|] == tokens;
  }

  /** A text is accepted exactly if every number in it can be read, and then each field is what the last line
      naming it says. */
  lemma {:induction false} LastLineWins(tokens: seq<string>)
    ensures FillAll(UNSET, tokens) == if Readable(tokens) then Parsed(Gathered(tokens)) else BackupMetadataInvalid
    decreases |tokens|
  {
    if tokens != [] {
      var front, last := tokens[..|tokens| - 1], tokens[|tokens| - 1];
      assert tokens == front + [last];
      LastLineWins(front);
      FillLast(UNSET, front, last);
      AllReadable(UNSET, tokens);
      if Readable(tokens) {
        assert Readable(front);
        GatherLine(front, last);
      }
    }
  }

  // -------------------------------------------------------------------------
  // Names of several lines

  function Split(s: string): (r: seq<string>)
    ensures r != []
    decreases |s|
  {
    var k := Find(s, '\n');
    if k == |s| then [s] else [s[..k]] + Split(s[k + 1..])
  }

  lemma UnlinesFirst(first: string, rest: seq<string>)
    ensures Unlines([first] + rest) == first + "\n" + Unlines(rest)
  {
    assert ([first] + rest)[1..] == rest;
  }

  lemma {:induction false} SplitIsOneLiners(s: string)
    ensures OneLiners(Split(s))
    decreases |s|
  {
    var k := Find(s, '\n');
    if k == |s| { assert s[..k] == s; } else { SplitIsOneLiners(s[k + 1..]); }
  }

  lemma {:induction false} SplitLines(s: string)
    ensures Unlines(Split(s)) == s + "\n"
    decreases |s|
  {
    var k := Find(s, '\n');
    if k == |s| {
      UnlinesFirst(s, []);
      assert [s] + [] == [s];
    } else {
      var first, rest := s[..k], s[k + 1..];
      SplitLines(rest);
      UnlinesFirst(first, Split(rest));
      Rejoin(s, k, Unlines(Split(rest)));
    }
  }

  lemma Rejoin(s: string, k: nat, tail: string)
    requires k < |s| && s[k] == '\n' && tail == s[k + 1..] + "\n"
    ensures s[..k] + "\n" + tail == s + "\n"
  {
    assert s == s[..k] + "\n" + s[k + 1..];
  }

  lemma {:induction false} UnlinesAppend(a: seq<string>, c: seq<string>)
    ensures Unlines(a + c) == Unlines(a) + Unlines(c)
  {
    if a == [] {
      assert a + c == c;
    } else {
      UnlinesAppend(a[1..], c);
      assert (a + c)[1..] == a[1..] + c;
    }
  }

  function NameLines(b: Backup): seq<string> { Split(Field("backupName", b.bname)) }

  /** The lines of the text: those of the backup's name, then one for each other field. */
  function AllLines(b: Backup): seq<string> { NameLines(b) + LaterFields(b) }

  lemma LinesOfText(b: Backup)
    requires OneLine(b.dname) && OneLine(b.time)
    ensures OneLiners(AllLines(b)) && Unlines(AllLines(b)) == Text(b)
  {
    var name := Field("backupName", b.bname);
    SplitLines(name);
    SplitIsOneLiners(name);
    FieldsAreOneLiners(b);
    UnlinesAppend(NameLines(b), LaterFields(b));
    UnlinesFirst(name, LaterFields(b));
  }

  lemma FieldsAreOneLiners(b: Backup)
    requires OneLine(b.dname) && OneLine(b.time)
    ensures OneLiners(LaterFields(b))
  {
    Keys();
  }

  /** No line of the backup's name is a size, uid, gid or mode line with an unreadable number. */
  ghost predicate ReadableName(b: Backup) {
    forall i :: 0 <= i < |NameLines(b)| ==> Fill(UNSET, NameLines(b)[i]).Some?
  }

  /** No line of the backup's name is a mode line. */
  ghost predicate NoModeInName(b: Backup) {
    forall i :: 0 <= i < |NameLines(b)| ==> Attribute(NameLines(b)[i]) != "mode"
  }

  // -------------------------------------------------------------------------
  // Texts cut off by the buffer

  lemma PrefixAttribute(token: string, m: nat)
    requires m <= |token|
    ensures Attribute(token[..m]) == "" || Attribute(token[..m]) == Attribute(token)
  {
    var pos := Find(token, ':');
    if m <= pos {
      assert token[..m] == token[..pos][..m];
      FindNone(token[..m], ':');
    } else {
      assert token[..m] == token[..pos] + [':'] + token[pos + 1..m];
      FindAfter(token[..pos], ':', token[pos + 1..m]);
      assert token[..m][..pos] == token[..pos];
    }
  }

  lemma {:induction false} ModeKept(info: Info, tokens: seq<string>)
    requires forall i :: 0 <= i < |tokens| ==> Attribute(tokens[i]) != "mode"
    ensures FillAll(info, tokens).Parsed? ==> FillAll(info, tokens).info.mode == info.mode
    decreases |tokens|
  {
    if tokens != [] && Fill(info, tokens[0]).Some? {
      ModeKept(Fill(info, tokens[0]).value, tokens[1..]);
    }
  }

  lemma EarlierFields(b: Backup, i: nat)
    requires i < 6
    ensures Attribute(Fields(b)[i]) != "mode"
  {
    Keys();
    FieldParts("backupName", b.bname);
    FieldParts("dataitemName", b.dname);
    FieldParts("dataitemSize", Decimal(b.size));
    FieldParts("BackupTime", b.time);
    FieldParts("uid", Decimal(b.uid));
    FieldParts("gid", Decimal(b.gid));
  }

  /** A mode line cut short is not read as that mode. */
  lemma CutMode(info: Info, n: nat, m: nat)
    requires m < |Field("mode", Decimal(n))| && info.mode == -1
    ensures var r := Fill(info, Field("mode", Decimal(n))[..m]); r.Some? ==> r.value.mode != n
  {
    Keys();
    var x := Field("mode", Decimal(n))[..m];
    if m <= 4 {
      assert x == "mode"[..m];
      FindNone(x, ':');
    } else {
      var v := (" " + Decimal(n))[..m - 5];
      assert x == "mode" + [':'] + v;
      FindAfter("mode", ':', v);
      assert Attribute(x) == "mode" && ValueText(x) == v;
      if m > 5 {
        assert v == " " + Decimal(n)[..m - 6];
        ReadDigits(Decimal(n)[..m - 6], INT_MAX);
        if m > 6 { PrefixSmaller(n, m - 6); }
      }
    }
  }

  /** Lines that leave the mode unset, and a mode line cut short. */
  lemma CutLastMode(front: seq<string>, n: nat, m: nat)
    requires m < |Field("mode", Decimal(n))|
    requires FillAll(UNSET, front).Parsed? ==> FillAll(UNSET, front).info.mode == -1
    ensures var last := Field("mode", Decimal(n))[..m];
      var r := FillAll(UNSET, if m == 0 then front else front + [last]); r.Parsed? ==> r.info.mode != n
  {
    if m > 0 {
      FillLast(UNSET, front, Field("mode", Decimal(n))[..m]);
      if FillAll(UNSET, front).Parsed? { CutMode(FillAll(UNSET, front).info, n, m); }
    }
  }

  /** Lines of which only the last is a mode line, with that line cut short or missing. */
  lemma CutLosesMode(f: seq<string>, n: nat, j: nat, m: nat)
    requires |f| > 0 && f[|f| - 1] == Field("mode", Decimal(n))
    requires forall i :: 0 <= i < |f| - 1 ==> Attribute(f[i]) != "mode"
    requires Inside(f, j, m) && j < |f| && (j == |f| - 1 ==> m < |f[j]|)
    ensures var r := FillAll(UNSET, Prefix(f, j, m)); r.Parsed? ==> r.info.mode != n
  {
    if j < |f| - 1 {
      PrefixAttribute(f[j], m);
      ModeKept(UNSET, Prefix(f, j, m));
    } else {
      ModeKept(UNSET, f[..j]);
      CutLastMode(f[..j], n, m);
    }
  }

  // -------------------------------------------------------------------------
  // The round trip

  lemma {:induction false} LinesAreOneLiners(text: string)
    ensures OneLiners(Lines(text))
    decreases |text|
  {
    if text != [] {
      FirstLine(text);
      LinesAreOneLiners(Rest(text));
    }
  }

  lemma {:induction false} NameIsOneLine(info: Info, tokens: seq<string>)
    requires OneLiners(tokens) && OneLine(info.dname)
    ensures FillAll(info, tokens).Parsed? ==> OneLine(FillAll(info, tokens).info.dname)
    decreases |tokens|
  {
    if tokens != [] && Fill(info, tokens[0]).Some? {
      assert OneLine(tokens[0]);
      NameIsOneLine(Fill(info, tokens[0]).value, tokens[1..]);
    }
  }

  lemma WholeText(b: Backup)
    requires OneLine(b.dname) && OneLine(b.time) && |Text(b)| <= BACKUP_META_SIZE
    ensures Lines(Written(b)) == AllLines(b)
  {
    LinesOfText(b);
    assert Written(b) == Text(b)[..|Written(b)|];
    var f := AllLines(b);
    var j, m := CutLines(f, |Written(b)|);
    if j < |f| { assert f[j][..m] == f[j] && f[..j] + [f[j]] == f; }
  }

  lemma CutText(b: Backup)
    requires OneLine(b.dname) && OneLine(b.time) && NoModeInName(b) && |Text(b)| > BACKUP_META_SIZE
    ensures Parse(Written(b)).Parsed? ==> Parse(Written(b)).info.mode != b.mode
  {
    LinesOfText(b);
    var f, names := AllLines(b), NameLines(b);
    var j, m := CutLines(f, BACKUP_META_SIZE - 1);
    forall i | 0 <= i < |f| - 1 ensures Attribute(f[i]) != "mode" {
      if i >= |names| { EarlierFields(b, i - |names| + 1); }
    }
    CutLosesMode(f, b.mode, j, m);
  }

  lemma ParseWhole(b: Backup)
    requires OneLine(b.dname) && OneLine(b.time) && |Text(b)| <= BACKUP_META_SIZE
    ensures Parse(Written(b)) == if ReadableName(b) && InRange(b) then Parsed(AsRead(b)) else BackupMetadataInvalid
  {
    WholeText(b);
    var names := NameLines(b);
    FillPrefix(UNSET, names, LaterFields(b));
    AllReadable(UNSET, names);
    if FillAll(UNSET, names).Parsed? { FillFields(FillAll(UNSET, names).info, b); }
  }

  /** Parsing a written text gives back size, uid, gid, mode, time and item name exactly if the item name
      has no newline, no line of the backup's name is an unreadable number line, the numbers are in signed
      range, and the buffer cuts off at most the last newline. */
  lemma RoundTripIff(b: Backup)
    requires OneLine(b.time) && (|Text(b)| <= BACKUP_META_SIZE || NoModeInName(b))
    ensures Parse(Written(b)) == Parsed(AsRead(b)) <==>
      OneLine(b.dname) && ReadableName(b) && InRange(b) && |Text(b)| <= BACKUP_META_SIZE
  {
    if !OneLine(b.dname) {
      LinesAreOneLiners(Written(b));
      NameIsOneLine(UNSET, Lines(Written(b)));
      assert '\n' in AsRead(b).dname;
    } else if |Text(b)| <= BACKUP_META_SIZE {
      ParseWhole(b);
    } else {
      CutText(b);
    }
  }

  /** For every backup, also one whose name brings lines of its own and whose text is cut: it is read back exactly if
      every number left in the text can be read and the last line for each field has the field's value. */
  lemma ReadBackIff(b: Backup)
    ensures Parse(Written(b)) == Parsed(AsRead(b)) <==>
      Readable(Lines(Written(b))) && Gathered(Lines(Written(b))) == AsRead(b)
  {
    LastLineWins(Lines(Written(b)));
  }

  /** A backup's name of one line, as a file name usually is, has neither kind of line. */
  lemma OneLineName(b: Backup)
    requires OneLine(b.bname)
    ensures ReadableName(b) && NoModeInName(b)
  {
    Keys();
    var f := Field("backupName", b.bname);
    FindNone(f, '\n');
    assert NameLines(b) == [f];
    FieldParts("backupName", b.bname);
    FillText(UNSET, b.bname);
  }

  lemma SplitTwo(a: string, c: string)
    requires OneLine(a) && OneLine(c)
    ensures Split(a + ['\n'] + c) == [a, c]
  {
    var s := a + ['\n'] + c;
    FindAfter(a, '\n', c);
    FindNone(c, '\n');
    assert s[..|a|] == a && s[|a| + 1..] == c;
  }

  lemma UnreadableUid()
    ensures Fill(UNSET, Field("uid", "z")).None?
  {
    Keys();
    FieldParts("uid", "z");
    assert (" " + "z")[1..] == "z";
    assert SkipSpace(" " + "z") == "z";
  }

  /** A name with a line "uid: z" makes the text unreadable. */
  lemma NameCanSpoilText(b: Backup)
    requires b.bname == "x" + ['\n'] + Field("uid", "z") && OneLine(b.time) && |Text(b)| <= BACKUP_META_SIZE
    ensures Parse(Written(b)) != Parsed(AsRead(b))
  {
    Keys();
    var first, second := Field("backupName", "x"), Field("uid", "z");
    assert Field("backupName", b.bname) == first + ['\n'] + second;
    SplitTwo(first, second);
    UnreadableUid();
    assert NameLines(b)[1] == second;
    RoundTripIff(b);
  }

  /** A user id that fits into 32 bits unsigned but not signed is written and not read back. */
  lemma LargeUidIsLost()
    ensures var b := Backup("b", "d", 1, "t", 0x8000_0000, 0, 0); Parse(Written(b)) != Parsed(AsRead(b))
  {
    var b := Backup("b", "d", 1, "t", 0x8000_0000, 0, 0);
    OneLineName(b);
    RoundTripIff(b);
  }
}
