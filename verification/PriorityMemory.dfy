/** The file that remembers games which starved recording, by keyed hashes of their names:
    its parser and printer, the hexadecimal codec, and the list itself. */
module PriorityMemory {
  import opened Basics

  const HEADER := "clipture-gpu-priority v1"
  const HEX_LENGTH: nat := 64
  const MAXIMUM_GAMES: nat := 512

  datatype Contents = Contents(keyHex: string, ids: seq<string>)

  predicate IsHexDigit(c: char) {
    '0' <= c <= '9' || 'a' <= c <= 'f'
  }

  predicate IsHex(text: string, length: nat) {
    |text| == length && forall i :: 0 <= i < |text| ==> IsHexDigit(text[i])
  }

  // -------------------------------------------------------------------- lines

  /** The position of the first newline, or the length of the text. */
  function LineEnd(text: string): (n: nat)
    ensures n <= |text| && (n < |text| ==> text[n] == '\n')
    ensures forall i :: 0 <= i < n ==> text[i] != '\n'
  {
    if text == "" || text[0] == '\n' then 0
    else
      var n := 1 + LineEnd(text[1..]);
      assert forall i :: 1 <= i < n ==> text[i] == text[1..][i - 1];
      n
  }

  /** A trailing newline ends the last line and begins no other. */
  function Lines(text: string): seq<string>
    decreases |text|
  {
    if text == "" then []
    else
      var n := LineEnd(text);
      [text[..n]] + if n < |text| then Lines(text[n + 1..]) else []
  }

  function WithoutCr(line: string): string {
    if line != "" && line[|line| - 1] == '\r' then line[..|line| - 1] else line
  }

  function CleanLines(text: string): seq<string> {
    seq(|Lines(text)|, i requires 0 <= i < |Lines(text)| => WithoutCr(Lines(text)[i]))
  }

  /** Lines put together, each with the given end. */
  function Joined(lines: seq<string>, end: string): string {
    if lines == [] then "" else lines[0] + end + Joined(lines[1..], end)
  }

  predicate Plain(line: string) {
    (forall i :: 0 <= i < |line| ==> line[i] != '\n') && (line != "" ==> line[|line| - 1] != '\r')
  }

  lemma FirstLine(line: string, rest: string)
    requires forall i :: 0 <= i < |line| ==> line[i] != '\n'
    ensures LineEnd(line + "\n" + rest) == |line|
    ensures Lines(line + "\n" + rest) == [line] + Lines(rest)
  {
    var text := line + "\n" + rest;
    var n := LineEnd(text);
    assert text[|line|] == '\n';
    assert forall i :: 0 <= i < |line| ==> text[i] == line[i];
    assert text[..|line|] == line && text[|line| + 1..] == rest;
  }

  lemma CleanFirst(text: string, line: string, rest: string)
    requires Lines(text) == [line] + Lines(rest)
    ensures CleanLines(text) == [WithoutCr(line)] + CleanLines(rest)
  {
  }

  lemma JoinedFirst(lines: seq<string>, cr: bool)
    requires lines != [] && Plain(lines[0])
    ensures var end := if cr then "\r\n" else "\n";
            CleanLines(Joined(lines, end)) == [lines[0]] + CleanLines(Joined(lines[1..], end))
  {
    var end := if cr then "\r\n" else "\n";
    var stored := if cr then lines[0] + "\r" else lines[0];
    var rest := Joined(lines[1..], end);
    assert Joined(lines, end) == stored + "\n" + rest;
    FirstLine(stored, rest);
    CleanFirst(Joined(lines, end), stored, rest);
    assert WithoutCr(stored) == lines[0];
  }

  /** Plain lines come back whether they end in LF or CRLF. */
  lemma {:induction false} JoinedLinesComeBack(lines: seq<string>, cr: bool)
    requires forall line <- lines :: Plain(line)
    ensures CleanLines(Joined(lines, if cr then "\r\n" else "\n")) == lines
  {
    if lines != [] {
      assert lines[0] in lines;
      JoinedLinesComeBack(lines[1..], cr);
      JoinedFirst(lines, cr);
      assert [lines[0]] + lines[1..] == lines;
    }
  }

  // ------------------------------------------------------------------- the file

  ghost predicate Distinct(ids: seq<string>) {
    forall i, j :: 0 <= i < j < |ids| ==> ids[i] != ids[j]
  }

  /** The valid ids among the lines, each once, in order of first appearance. */
  function Ids(lines: seq<string>): seq<string> {
    if lines == [] then []
    else
      var before, last := Ids(lines[..|lines| - 1]), lines[|lines| - 1];
      if IsHex(last, HEX_LENGTH) && last !in before then before + [last] else before
  }

  predicate StartsWith(text: string, prefix: string) {
    prefix <= text
  }

  function Parse(text: string): Option<Contents> {
    var lines := CleanLines(text);
    if |lines| < 2 || lines[0] != HEADER || !StartsWith(lines[1], "key ") then None
    else
      var key := lines[1][4..];
      if IsHex(key, HEX_LENGTH) then Some(Contents(key, Ids(lines[2..]))) else None
  }

  method ParseText(text: string) returns (r: Option<Contents>)
    ensures r == Parse(text)
  {
    var lines := CleanLines(text);
    if |lines| < 1 || lines[0] != HEADER { return None; }
    if |lines| < 2 || !StartsWith(lines[1], "key ") { return None; }
    var key := lines[1][4..];
    if !IsHex(key, HEX_LENGTH) { return None; }
    var rest := lines[2..];
    var ids: seq<string> := [];
    for i := 0 to |rest|
      invariant ids == Ids(rest[..i])
    {
      assert rest[..i + 1][..i] == rest[..i];
      if IsHex(rest[i], HEX_LENGTH) && rest[i] !in ids {
        ids := ids + [rest[i]];
      }
    }
    assert rest[..|rest|] == rest;
    r := Some(Contents(key, ids));
  }

  function FormatWith(c: Contents, end: string): string {
    Joined([HEADER, "key " + c.keyHex] + c.ids, end)
  }

  function Format(c: Contents): string {
    FormatWith(c, "\n")
  }

  // The printer appends line by line.
  method FormatContents(c: Contents) returns (text: string)
    ensures text == Format(c)
  {
    text := HEADER + "\nkey " + c.keyHex + "\n";
    ghost var lines := [HEADER, "key " + c.keyHex];
    JoinTwo(HEADER, "key " + c.keyHex);
    assert lines + c.ids[..0] == lines;
    for i := 0 to |c.ids|
      invariant text == Joined(lines + c.ids[..i], "\n")
    {
      JoinedAppend(lines + c.ids[..i], c.ids[i], "\n");
      assert lines + c.ids[..i + 1] == lines + c.ids[..i] + [c.ids[i]];
      text := text + (c.ids[i] + "\n");
    }
    assert c.ids[..|c.ids|] == c.ids;
  }

  lemma JoinTwo(a: string, b: string)
    ensures Joined([a, b], "\n") == a + "\n" + (b + "\n")
    ensures a + "\n" + b + "\n" == a + "\n" + (b + "\n")
  {
    assert [a, b][1..] == [b];
    assert Joined([b], "\n") == b + "\n" + "";
  }

  lemma {:induction false} JoinedAppend(lines: seq<string>, line: string, end: string)
    ensures Joined(lines + [line], end) == Joined(lines, end) + (line + end)
  {
    if lines == [] {
      assert [] + [line] == [line];
      assert Joined([line], end) == line + end + "";
    } else {
      assert (lines + [line])[1..] == lines[1..] + [line];
      JoinedAppend(lines[1..], line, end);
    }
  }

  /** What the file can hold: a key and distinct ids, all of full length. */
  ghost predicate Proper(c: Contents) {
    && IsHex(c.keyHex, HEX_LENGTH) && Distinct(c.ids)
    && forall id <- c.ids :: IsHex(id, HEX_LENGTH)
  }

  lemma {:induction false} IdsAreProper(lines: seq<string>)
    ensures Distinct(Ids(lines)) && forall id <- Ids(lines) :: IsHex(id, HEX_LENGTH)
  {
    if lines != [] {
      IdsAreProper(lines[..|lines| - 1]);
    }
  }

  lemma {:induction false} ProperIdsAreKept(ids: seq<string>)
    requires Distinct(ids) && forall id <- ids :: IsHex(id, HEX_LENGTH)
    ensures Ids(ids) == ids
  {
    if ids != [] {
      var n := |ids| - 1;
      ProperIdsAreKept(ids[..n]);
      assert ids == ids[..n] + [ids[n]];
      assert ids[n] !in ids[..n];
    }
  }

  lemma HexIsPlain(text: string, length: nat)
    requires IsHex(text, length)
    ensures Plain(text)
  {
  }

  lemma KeyLineIsPlain(keyHex: string)
    requires IsHex(keyHex, HEX_LENGTH)
    ensures Plain("key " + keyHex)
  {
    var line := "key " + keyHex;
    assert forall i :: 4 <= i < |line| ==> line[i] == keyHex[i - 4];
  }

  lemma ProperContentsComeBack(c: Contents, cr: bool)
    requires Proper(c)
    ensures Parse(FormatWith(c, if cr then "\r\n" else "\n")) == Some(c)
  {
    var key := "key " + c.keyHex;
    var lines := [HEADER, key] + c.ids;
    KeyLineIsPlain(c.keyHex);
    forall line | line in lines
      ensures Plain(line)
    {
      if line in c.ids {
        HexIsPlain(line, HEX_LENGTH);
      }
    }
    JoinedLinesComeBack(lines, cr);
    ProperIdsAreKept(c.ids);
    assert lines[2..] == c.ids && key[4..] == c.keyHex && StartsWith(key, "key ");
  }

  /** Whatever is read is proper. */
  /** A line is taken for an id exactly when it is one; other lines are passed over. */
  lemma {:induction false} EveryIdIsTaken(lines: seq<string>, line: string)
    ensures line in Ids(lines) <==> line in lines && IsHex(line, 64)
  {
    if lines != [] {
      var n := |lines| - 1;
      EveryIdIsTaken(lines[..n], line);
      assert lines == lines[..n] + [lines[n]];
    }
  }

  /** A file is readable exactly when it begins with the header and a full key; then every line
      after them that is an id is remembered. */
  lemma ReadableText(text: string, line: string)
    ensures var lines := CleanLines(text);
            && (Parse(text).Some? <==>
                  && |lines| >= 2 && lines[0] == "clipture-gpu-priority v1"
                  && exists key :: lines[1] == "key " + key && IsHex(key, 64))
            && (Parse(text).Some? ==>
                  (line in Parse(text).value.ids <==> line in lines[2..] && IsHex(line, 64)))
  {
    var lines := CleanLines(text);
    if |lines| >= 2 {
      EveryIdIsTaken(lines[2..], line);
      if exists key :: lines[1] == "key " + key && IsHex(key, 64) {
        var key :| lines[1] == "key " + key && IsHex(key, 64);
        assert lines[1][4..] == key && lines[1][..4] == "key ";
      }
      if StartsWith(lines[1], "key ") {
        assert lines[1] == "key " + lines[1][4..];
      }
    }
  }

  lemma ParsedIsProper(text: string)
    ensures Parse(text).Some? ==> Proper(Parse(text).value)
  {
    if Parse(text).Some? {
      IdsAreProper(CleanLines(text)[2..]);
    }
  }

  /** Printing and reading gives the contents back exactly when they are proper, and the file
      may be stored with either line end. */
  lemma FormatRoundTrip(c: Contents)
    ensures Parse(Format(c)) == Some(c) <==> Proper(c)
    ensures Parse(FormatWith(c, "\r\n")) == Some(c) <==> Proper(c)
  {
    ParsedIsProper(Format(c));
    ParsedIsProper(FormatWith(c, "\r\n"));
    if Proper(c) {
      ProperContentsComeBack(c, false);
      ProperContentsComeBack(c, true);
    }
  }

  // ----------------------------------------------------------------- hexadecimal

  type Byte = x: int | 0 <= x < 256

  const DIGITS := "0123456789abcdef"

  function TwoDigits(b: Byte): string {
    [DIGITS[b / 16], DIGITS[b % 16]]
  }

  function ToHex(bytes: seq<Byte>): string {
    if bytes == [] then "" else TwoDigits(bytes[0]) + ToHex(bytes[1..])
  }

  function DigitValue(c: char): (v: int)
    requires IsHexDigit(c)
    ensures 0 <= v < 16 && DIGITS[v] == c
  {
    if '0' <= c <= '9' then c as int - '0' as int else c as int - 'a' as int + 10
  }

  function ByteOf(high: char, low: char): Byte
    requires IsHexDigit(high) && IsHexDigit(low)
  {
    DigitValue(high) * 16 + DigitValue(low)
  }

  /** Two digits a byte; an odd last digit is ignored. */
  function FromHex(hex: string): seq<Byte>
    requires forall i :: 0 <= i < |hex| ==> IsHexDigit(hex[i])
  {
    if |hex| < 2 then [] else [ByteOf(hex[0], hex[1])] + FromHex(hex[2..])
  }

  lemma {:induction false} HexDigits(v: nat)
    requires v < 16
    ensures IsHexDigit(DIGITS[v]) && DigitValue(DIGITS[v]) == v
  {
  }

  lemma {:induction false} ToHexIsHex(bytes: seq<Byte>)
    ensures IsHex(ToHex(bytes), 2 * |bytes|)
  {
    if bytes != [] {
      ToHexIsHex(bytes[1..]);
      HexDigits(bytes[0] / 16);
      HexDigits(bytes[0] % 16);
    }
  }

  lemma ByteOfItsDigits(b: Byte)
    ensures IsHexDigit(TwoDigits(b)[0]) && IsHexDigit(TwoDigits(b)[1])
    ensures ByteOf(TwoDigits(b)[0], TwoDigits(b)[1]) == b
  {
    HexDigits(b / 16);
    HexDigits(b % 16);
  }

  lemma FromHexOneMore(digits: string, rest: string)
    requires |digits| == 2 && forall i :: 0 <= i < |digits + rest| ==> IsHexDigit((digits + rest)[i])
    ensures IsHexDigit(digits[0]) && IsHexDigit(digits[1])
    ensures forall i :: 0 <= i < |rest| ==> IsHexDigit(rest[i])
    ensures FromHex(digits + rest) == [ByteOf(digits[0], digits[1])] + FromHex(rest)
  {
    var all := digits + rest;
    assert all[0] == digits[0] && all[1] == digits[1] && all[2..] == rest;
    forall i | 0 <= i < |rest|
      ensures IsHexDigit(rest[i])
    {
      assert rest[i] == all[i + 2];
    }
  }

  lemma {:induction false} FromHexInvertsToHex(bytes: seq<Byte>)
    ensures IsHex(ToHex(bytes), 2 * |bytes|) && FromHex(ToHex(bytes)) == bytes
  {
    ToHexIsHex(bytes);
    if bytes != [] {
      FromHexInvertsToHex(bytes[1..]);
      ByteOfItsDigits(bytes[0]);
      FromHexOneMore(TwoDigits(bytes[0]), ToHex(bytes[1..]));
      assert [bytes[0]] + bytes[1..] == bytes;
    }
  }

  lemma Nibbles(high: nat, low: nat)
    requires low < 16
    ensures (high * 16 + low) / 16 == high && (high * 16 + low) % 16 == low
  {
  }

  lemma DigitsOfByte(high: char, low: char)
    requires IsHexDigit(high) && IsHexDigit(low)
    ensures TwoDigits(ByteOf(high, low)) == [high, low]
  {
    var h, l := DigitValue(high), DigitValue(low);
    Nibbles(h, l);
    assert ByteOf(high, low) / 16 == h && ByteOf(high, low) % 16 == l;
    DigitsAre(ByteOf(high, low), h, l);
  }

  lemma DigitsAre(b: Byte, high: nat, low: nat)
    requires high < 16 && low < 16 && b / 16 == high && b % 16 == low
    ensures TwoDigits(b) == [DIGITS[high], DIGITS[low]]
  {
  }

  lemma HexOfOneMore(b: Byte, rest: seq<Byte>)
    ensures ToHex([b] + rest) == TwoDigits(b) + ToHex(rest)
  {
    assert ([b] + rest)[1..] == rest;
  }

  lemma {:induction false} ToHexInvertsFromHex(hex: string)
    requires |hex| % 2 == 0 && forall i :: 0 <= i < |hex| ==> IsHexDigit(hex[i])
    ensures ToHex(FromHex(hex)) == hex
  {
    if hex != "" {
      ToHexInvertsFromHex(hex[2..]);
      DigitsOfByte(hex[0], hex[1]);
      HexOfOneMore(ByteOf(hex[0], hex[1]), FromHex(hex[2..]));
      assert hex == [hex[0], hex[1]] + hex[2..];
    }
  }

  /** The file's text, line by line. */
  lemma {:induction false} FileText(keyHex: string, ids: seq<string>, last: string)
    ensures Format(Contents(keyHex, [])) == "clipture-gpu-priority v1\nkey " + keyHex + "\n"
    ensures Format(Contents(keyHex, ids + [last])) == Format(Contents(keyHex, ids)) + last + "\n"
  {
    var head := [HEADER, "key " + keyHex];
    var key := "key " + keyHex;
    assert head + [] == head && head[1..] == [key] && head[1..][1..] == [];
    assert Joined([key], "\n") == key + "\n";
    assert Joined(head, "\n") == HEADER + "\n" + (key + "\n");
    JoinedLast(head + ids, last, "\n");
    assert head + ids + [last] == head + (ids + [last]);
  }

  lemma {:induction false} JoinedLast(lines: seq<string>, last: string, end: string)
    ensures Joined(lines + [last], end) == Joined(lines, end) + last + end
  {
    if lines == [] {
      assert [last][1..] == [];
    } else {
      assert (lines + [last])[1..] == lines[1..] + [last];
      JoinedLast(lines[1..], last, end);
    }
  }

  /** Hexadecimal digits count from 0 to f, the high one first, and a key or id has 64. */
  lemma HexIsBigEndian(high: char, low: char)
    requires IsHexDigit(high) && IsHexDigit(low)
    ensures DigitValue('0') == 0 && DigitValue('9') == 9 && DigitValue('a') == 10 && DigitValue('f') == 15
    ensures FromHex([high, low]) == [16 * DigitValue(high) + DigitValue(low)]
    ensures IsHex([high, low], 2) && HEX_LENGTH == 64
  {
    assert [high, low][2..] == [];
  }

  // ------------------------------------------------------------------ the memory

  /** Adding an id keeps the list distinct exactly when it is not among those that stay. */
  lemma NewestStaysDistinct(ids: seq<string>, id: string, n: nat)
    requires Distinct(ids) && n > 0
    ensures Distinct(Newest(ids + [id], n)) <==> id !in Newest(ids, n - 1)
  {
    var all, kept := Newest(ids + [id], n), Newest(ids, n - 1);
    assert all == kept + [id];
    if id in kept {
      var i :| 0 <= i < |kept| && kept[i] == id;
      assert all[i] == all[|kept|];
    }
  }

  /** What the memory holds; `keyHex` is empty until the first game is remembered. */
  datatype Memory = Memory(hasPath: bool, keyHex: string, ids: seq<string>)

  predicate Coherent(m: Memory) {
    && (if m.keyHex == "" then m.ids == [] else IsHex(m.keyHex, HEX_LENGTH))
    && forall id <- m.ids :: IsHex(id, HEX_LENGTH)
  }

  /** One call to remember a game. `looked` and `id` are the two keyed hashes it takes of the
      name, empty when hashing fails; `newKey` is the key made when there is none. */
  datatype Call = Call(name: string, looked: string, id: string, newKey: string)

  /** Both hashes are of the same name under the same key, so they agree unless one fails. */
  predicate CallOk(c: Call) {
    && (c.id == "" || IsHex(c.id, HEX_LENGTH)) && (c.looked == "" || c.id == "" || c.looked == c.id)
    && (c.newKey == "" || IsHex(c.newKey, HEX_LENGTH))
  }

  function WithKey(m: Memory, c: Call): Memory {
    if m.keyHex == "" && m.hasPath && c.name != "" then m.(keyHex := c.newKey) else m
  }

  /** The call adds an id: the game is not found known, and there are a key and a hash. */
  predicate Takes(m: Memory, c: Call) {
    m.hasPath && c.name != "" && c.looked !in m.ids && WithKey(m, c).keyHex != "" && c.id != ""
  }

  function Remembered(m: Memory, c: Call): Memory {
    var keyed := WithKey(m, c);
    if Takes(m, c) then keyed.(ids := Newest(m.ids + [c.id], MAXIMUM_GAMES)) else keyed
  }

  lemma RememberedIsCoherent(m: Memory, c: Call)
    requires Coherent(m) && CallOk(c)
    ensures Coherent(Remembered(m, c))
  {
    if Takes(m, c) {
      assert forall id <- Newest(m.ids + [c.id], MAXIMUM_GAMES) :: id in m.ids || id == c.id;
    }
  }

  // ------------------------------------------------------------------ runs of calls

  function AfterCalls(m: Memory, calls: seq<Call>): Memory {
    if calls == [] then m
    else Remembered(AfterCalls(m, calls[..|calls| - 1]), calls[|calls| - 1])
  }

  /** The ids added by a run, oldest first. */
  function TakenIds(m: Memory, calls: seq<Call>): seq<string> {
    if calls == [] then []
    else
      var front, last := calls[..|calls| - 1], calls[|calls| - 1];
      TakenIds(m, front) + if Takes(AfterCalls(m, front), last) then [last.id] else []
  }

  /** A run leaves the newest of the ids it began with and those it added, in order. */
  lemma {:induction false} RunKeepsTheNewest(m: Memory, calls: seq<Call>)
    requires Coherent(m) && forall c <- calls :: CallOk(c)
    ensures Coherent(AfterCalls(m, calls))
    ensures var taken := TakenIds(m, calls);
            AfterCalls(m, calls).ids == if taken == [] then m.ids else Newest(m.ids + taken, 512)
  {
    if calls != [] {
      var front, last := calls[..|calls| - 1], calls[|calls| - 1];
      RunKeepsTheNewest(m, front);
      var before := AfterCalls(m, front);
      RememberedIsCoherent(before, last);
      if Takes(before, last) {
        NewestOfNewest(m.ids + TakenIds(m, front), [last.id], MAXIMUM_GAMES);
        Regroup(m.ids, TakenIds(m, front), [last.id]);
        assert TakenIds(m, front) == [] ==> m.ids + [] == m.ids;
      }
    }
  }

  /** The call adds an id that stays in the list already. */
  predicate Repeats(m: Memory, c: Call) {
    Takes(m, c) && c.id in Newest(m.ids, MAXIMUM_GAMES - 1)
  }

  ghost predicate DistinctThroughout(m: Memory, calls: seq<Call>) {
    Distinct(AfterCalls(m, calls).ids) && (calls != [] ==> DistinctThroughout(m, calls[..|calls| - 1]))
  }

  ghost predicate NeverRepeats(m: Memory, calls: seq<Call>) {
    calls != [] ==>
      && NeverRepeats(m, calls[..|calls| - 1])
      && !Repeats(AfterCalls(m, calls[..|calls| - 1]), calls[|calls| - 1])
  }

  /** Throughout a run the ids are distinct exactly when no call repeats one. */
  lemma {:induction false} DistinctUnlessRepeated(m: Memory, calls: seq<Call>)
    requires Distinct(m.ids)
    ensures DistinctThroughout(m, calls) <==> NeverRepeats(m, calls)
  {
    if calls != [] {
      var front, last := calls[..|calls| - 1], calls[|calls| - 1];
      DistinctUnlessRepeated(m, front);
      if DistinctThroughout(m, front) {
        NewestStaysDistinct(AfterCalls(m, front).ids, last.id, MAXIMUM_GAMES);
      }
    }
  }

  /** The first hash succeeds whenever the second does. */
  predicate Steady(c: Call) {
    c.id != "" ==> c.looked == c.id
  }

  lemma {:induction false} SteadyNeverRepeats(m: Memory, calls: seq<Call>)
    requires forall c <- calls :: Steady(c)
    ensures NeverRepeats(m, calls)
  {
    if calls != [] {
      SteadyNeverRepeats(m, calls[..|calls| - 1]);
      assert Steady(calls[|calls| - 1]);
    }
  }

  /** While hashing is steady, after every run the ids are distinct; and once a call has added
      one, the newest is last and at most the maximum remain. */
  lemma RememberedIdsStayDistinct(m: Memory, calls: seq<Call>)
    requires Coherent(m) && Distinct(m.ids) && forall c <- calls :: CallOk(c) && Steady(c)
    ensures var ids, taken := AfterCalls(m, calls).ids, TakenIds(m, calls);
            && Distinct(ids)
            && (taken != [] ==> ids != [] && ids[|ids| - 1] == taken[|taken| - 1] && |ids| <= 512)
  {
    SteadyNeverRepeats(m, calls);
    DistinctUnlessRepeated(m, calls);
    RunKeepsTheNewest(m, calls);
    var all := m.ids + TakenIds(m, calls);
  }

  /** A game that was added stays known until as many others are added as the memory holds. */
  lemma AddedGameStaysKnown(m: Memory, c: Call, calls: seq<Call>)
    requires Coherent(m) && CallOk(c) && Takes(m, c) && forall later <- calls :: CallOk(later)
    requires |TakenIds(Remembered(m, c), calls)| < 512
    ensures c.id in AfterCalls(Remembered(m, c), calls).ids
  {
    var t := Remembered(m, c);
    RememberedIsCoherent(m, c);
    RunKeepsTheNewest(t, calls);
    var all := t.ids + TakenIds(t, calls);
    assert t.ids[|t.ids| - 1] == c.id && all[|t.ids| - 1] == c.id;
    var kept := Newest(all, MAXIMUM_GAMES);
    assert kept[|t.ids| - 1 - (|all| - |kept|)] == c.id;
  }

  const ZEROS: string := seq(HEX_LENGTH, _ => '0')

  /** When the first hash fails on a known game and the second does not, the game is listed
      twice. */
  lemma FailedHashRepeats()
    ensures var m, call := Memory(true, ZEROS, [ZEROS]), Call("game.exe", "", ZEROS, "");
            && Coherent(m) && Distinct(m.ids) && CallOk(call)
            && Remembered(m, call).ids == [ZEROS, ZEROS] && !Distinct(Remembered(m, call).ids)
  {
    var m, call := Memory(true, ZEROS, [ZEROS]), Call("game.exe", "", ZEROS, "");
    assert |ZEROS| == HEX_LENGTH && "" !in m.ids;
    assert Takes(m, call);
    var ids := Remembered(m, call).ids;
    assert ids == [ZEROS, ZEROS] && ids[0] == ids[1];
  }

  class GpuPriorityMemory {
    var hasPath: bool
    var keyHex: string
    var ids: seq<string>

    ghost function State(): Memory
      reads this
    {
      Memory(hasPath, keyHex, ids)
    }

    constructor ()
      ensures Coherent(State()) && ids == [] && keyHex == ""
    {
      hasPath, keyHex, ids := false, "", [];
    }

    // `text` is the file, if it can be read. It is not trimmed to the maximum on opening.
    method Open(hasPath: bool, text: Option<string>)
      modifies this
      ensures Coherent(State()) && Distinct(ids) && this.hasPath == hasPath
      ensures var parsed := if hasPath && text.Some? then Parse(text.value) else None;
              && keyHex == (if parsed.Some? then parsed.value.keyHex else "")
              && ids == (if parsed.Some? then parsed.value.ids else [])
    {
      this.hasPath, keyHex, ids := hasPath, "", [];
      if !hasPath || text.None? { return; }
      ParsedIsProper(text.value);
      var contents := ParseText(text.value);
      if contents.Some? {
        keyHex, ids := contents.value.keyHex, contents.value.ids;
      }
    }

    // A game is known exactly when its keyed hash `id` is listed.
    method Contains(name: string, id: string) returns (r: bool)
      requires Coherent(State())
      ensures r <==> name != "" && id in ids
    {
      if keyHex == "" || name == "" || ids == [] { return false; }
      r := id != "" && id in ids;
    }

    // Adds an id at the end; the oldest go when there are too many.
    method Add(id: string)
      modifies this`ids
      ensures ids == Newest(old(ids) + [id], MAXIMUM_GAMES)
    {
      ids := ids + [id];
      if |ids| > MAXIMUM_GAMES {
        ids := ids[|ids| - MAXIMUM_GAMES..];
      }
    }

    // Remembers a game unless it is known already. The list is changed whether or not the file
    // can then be replaced.
    method Remember(call: Call, saved: bool) returns (ok: bool, file: string)
      requires Coherent(State()) && CallOk(call)
      modifies this`keyHex, this`ids
      ensures State() == Remembered(old(State()), call) && Coherent(State())
      ensures ok == (Takes(old(State()), call) && saved)
      ensures Takes(old(State()), call) ==> file == Format(Contents(keyHex, ids))
    {
      RememberedIsCoherent(State(), call);
      file := "";
      if !hasPath || call.name == "" { return false, file; }
      var known := Contains(call.name, call.looked);
      if known { return false, file; }
      if keyHex == "" {
        keyHex := call.newKey;
        if keyHex == "" { return false, file; }
      }
      if call.id == "" { return false, file; }
      Add(call.id);
      file := FormatContents(Contents(keyHex, ids));
      ok := saved;
    }
  }
}
