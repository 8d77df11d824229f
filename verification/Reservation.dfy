/** The worst price an order may be filled at, carried in the order's own name.

    A replacement gets a new name, because the broker refuses one it has seen; what
    must survive every renaming is the floor. Prices are in hundredths of a dollar. */
module Reservation {
  import opened Decimal

  datatype Option<T> = None | Some(value: T)

  const PREFIX := "worst="

  /** The longest name the broker accepts. Names are ASCII: a character is a byte. */
  const NAME_LIMIT := 128

  /** What strconv.ParseFloat makes of a word: a finite number, or none. */
  type Reader = string -> Option<real>

  /** All that is asked of it: a plain decimal is read as what it says. */
  ghost predicate ReadsDecimals(read: Reader) {
    forall s :: IsPlain(s) ==> read(s) == Some(PlainHundredths(s) as real / 100.0)
  }

  /** To the nearest whole number, halves away from zero. */
  function Round(x: real): int {
    if x >= 0.0 then (x + 0.5).Floor else -(-x + 0.5).Floor
  }

  // ---------- reading the floor ----------

  predicate Separator(c: char) {
    c == ';' || c == ',' || c == ' '
  }

  /** How many characters the word at the front has. */
  function WordLength(s: string): (n: nat)
    ensures n <= |s|
    ensures forall i :: 0 <= i < n ==> !Separator(s[i])
    ensures n < |s| ==> Separator(s[n])
  {
    if s == "" || Separator(s[0]) then 0 else 1 + WordLength(s[1..])
  }

  /** The words of a name, empty ones left out. */
  function Words(s: string): seq<string>
    decreases |s|
  {
    if s == "" then []
    else if Separator(s[0]) then Words(s[1..])
    else var n := WordLength(s); [s[..n]] + Words(s[n..])
  }

  predicate HasPrefix(s: string) {
    |PREFIX| <= |s| && s[..|PREFIX|] == PREFIX
  }

  /** The first word with the prefix decides, whether it reads as a number or not. */
  function FirstStated(words: seq<string>, read: Reader): Option<int> {
    if words == [] then None
    else if HasPrefix(words[0]) then
      var value := read(words[0][|PREFIX|..]);
      if value.Some? then Some(Round(value.value * 100.0)) else None
    else FirstStated(words[1..], read)
  }

  function Floor(name: string, read: Reader): Option<int> {
    FirstStated(Words(name), read)
  }

  // ---------- writing the name ----------

  function NameFor(floor: int): string {
    PREFIX + PrintHundredths(floor)
  }

  function LastSemicolon(s: string): (i: int)
    ensures -1 <= i < |s|
    ensures i >= 0 ==> s[i] == ';'
    ensures forall j :: i < j < |s| ==> s[j] != ';'
  {
    if s == "" then -1
    else if s[|s| - 1] == ';' then |s| - 1
    else LastSemicolon(s[..|s| - 1])
  }

  /** The fields between semicolons, empty ones kept. */
  function Split(s: string): (fields: seq<string>)
    ensures fields != []
    decreases |s|
  {
    var i := LastSemicolon(s);
    if i < 0 then [s] else Split(s[..i]) + [s[i + 1..]]
  }

  function Join(fields: seq<string>): string {
    if fields == [] then ""
    else if |fields| == 1 then fields[0]
    else Join(fields[..|fields| - 1]) + ";" + fields[|fields| - 1]
  }

  predicate IsSpace(c: char) {
    || c == ' ' || '\t' <= c <= '\r' || c == '\U{0085}' || c == '\U{00A0}' || c == '\U{1680}'
    || '\U{2000}' <= c <= '\U{200A}' || c == '\U{2028}' || c == '\U{2029}' || c == '\U{202F}'
    || c == '\U{205F}' || c == '\U{3000}'
  }

  function TrimSpace(s: string): (t: string)
    ensures |t| <= |s|
    decreases |s|
  {
    if s == "" then s
    else if IsSpace(s[0]) then TrimSpace(s[1..])
    else if IsSpace(s[|s| - 1]) then TrimSpace(s[..|s| - 1])
    else s
  }

  /** What strconv.ParseInt accepts at 64 bits. */
  predicate IsStamp(field: string) {
    var t := TrimSpace(field);
    IsWhole(t) && -0x8000_0000_0000_0000 <= WholeValue(t) < 0x8000_0000_0000_0000
  }

  /** Everything but the stamp added last time: the last field only, and only if it
      is a bare whole number. */
  function Kept(name: string): string {
    var fields := Split(name);
    var last := |fields| - 1;
    Join(if IsStamp(fields[last]) then fields[..last] else fields)
  }

  /** A moment: nanoseconds, in 64 bits. */
  type Nanoseconds = t: int | -0x8000_0000_0000_0000 <= t < 0x8000_0000_0000_0000

  predicate Fits(name: string, at: Nanoseconds) {
    |name| + 1 + |Print(at)| <= NAME_LIMIT
  }

  function NameCarrying(name: string, at: Nanoseconds, read: Reader): string {
    var kept := Kept(name);
    var floor := Floor(name, read);
    if kept != "" && Fits(kept, at) then kept + ";" + Print(at)
    else if floor.Some? && Fits(NameFor(floor.value), at) then NameFor(floor.value) + ";" + Print(at)
    else Print(at)
  }

  // ---------- words of a joined name ----------

  lemma {:induction false} WordsOfBoth(a: string, c: char, b: string)
    requires Separator(c)
    ensures Words(a + [c] + b) == Words(a) + Words(b)
    decreases |a|
  {
    var s := a + [c] + b;
    if a == "" {
      assert s[1..] == b;
    } else if Separator(a[0]) {
      assert s[1..] == a[1..] + [c] + b;
      WordsOfBoth(a[1..], c, b);
    } else {
      WordLengthOfBoth(a, c, b);
      var n := WordLength(a);
      assert s[n..] == a[n..] + [c] + b && s[..n] == a[..n];
      WordsOfBoth(a[n..], c, b);
    }
  }

  lemma {:induction false} WordLengthOfBoth(a: string, c: char, b: string)
    requires Separator(c)
    ensures WordLength(a + [c] + b) == WordLength(a)
  {
    if a == "" || Separator(a[0]) {
    } else {
      assert (a + [c] + b)[1..] == a[1..] + [c] + b;
      WordLengthOfBoth(a[1..], c, b);
    }
  }

  lemma {:induction false} OneWord(s: string)
    requires s != "" && forall i :: 0 <= i < |s| ==> !Separator(s[i])
    ensures WordLength(s) == |s| && Words(s) == [s]
  {
    if |s| == 1 {
    } else {
      OneWord(s[1..]);
    }
    assert s[..|s|] == s && s[|s|..] == "";
  }

  lemma {:induction false} StatedInEither(a: seq<string>, b: seq<string>, read: Reader)
    ensures FirstStated(b, read).None? ==> FirstStated(a + b, read) == FirstStated(a, read)
  {
    if a == [] {
      assert a + b == b;
    } else {
      assert (a + b)[1..] == a[1..] + b;
      StatedInEither(a[1..], b, read);
    }
  }

  lemma PrefixStartsWithW(s: string)
    ensures HasPrefix(s) ==> s[0] == 'w'
  {
    if HasPrefix(s) {
      assert s[..|PREFIX|][0] == PREFIX[0];
    }
  }

  lemma {:induction false} NothingStatedWithoutW(s: string, read: Reader)
    requires forall i :: 0 <= i < |s| ==> s[i] != 'w'
    ensures Floor(s, read).None?
    decreases |s|
  {
    if s == "" {
    } else {
      if Separator(s[0]) {
        NothingStatedWithoutW(s[1..], read);
      } else {
        var n := WordLength(s);
        NothingStatedWithoutW(s[n..], read);
        PrefixStartsWithW(s[..n]);
        assert Words(s)[1..] == Words(s[n..]);
      }
    }
  }

  // ---------- stamps ----------

  lemma {:induction false} StampHoldsNoW(field: string)
    requires IsWhole(TrimSpace(field))
    ensures forall i :: 0 <= i < |field| ==> field[i] != 'w'
    decreases |field|
  {
    if field == "" {
    } else {
      if IsSpace(field[0]) {
        StampHoldsNoW(field[1..]);
        assert forall i :: 1 <= i < |field| ==> field[i] == field[1..][i - 1];
      } else if IsSpace(field[|field| - 1]) {
        StampHoldsNoW(field[..|field| - 1]);
        assert forall i :: 0 <= i < |field| - 1 ==> field[i] == field[..|field| - 1][i];
      } else {
        var u := Unsigned(field);
        forall i | 0 <= i < |field| ensures field[i] != 'w' {
          if u != field && i > 0 {
            assert field[i] == u[i - 1];
          }
        }
      }
    }
  }

  lemma PrintIsAStamp(at: Nanoseconds)
    ensures IsStamp(Print(at))
    ensures LastSemicolon(Print(at)) == -1
    ensures forall i :: 0 <= i < |Print(at)| ==> Print(at)[i] != 'w' && !Separator(Print(at)[i])
    ensures |Print(at)| <= 20
  {
    hide Digits, IsWhole, WholeValue, Print, TrimSpace, LastSemicolon;
    PrintReadBack(at);
    var s := Print(at);
    assert LastSemicolon(s) == -1;
    assert IsDigit(s[0]) || s[0] == '-';
    assert IsDigit(s[|s| - 1]) || s[|s| - 1] == '-';
    NothingToTrim(s);
    StampLength(at);
  }

  lemma NothingToTrim(s: string)
    requires s != "" && !IsSpace(s[0]) && !IsSpace(s[|s| - 1])
    ensures TrimSpace(s) == s
  {
  }

  lemma StampLength(at: Nanoseconds)
    ensures |Print(at)| <= 20
  {
    assert Power10(19) == 10_000_000_000_000_000_000 by {
      assert Power10(10) == 10_000_000_000;
    }
    var n: int := at;
    DigitsLength(if n < 0 then -n else n, 19);
  }

  lemma StampsDiffer(at: Nanoseconds, at': Nanoseconds)
    ensures Print(at) == Print(at') ==> at == at'
  {
    PrintReadBack(at);
    PrintReadBack(at');
  }

  // ---------- what is kept ----------

  lemma {:induction false} SplitThenJoin(s: string)
    ensures Join(Split(s)) == s
    decreases |s|
  {
    var i := LastSemicolon(s);
    if i < 0 {
    } else {
      SplitThenJoin(s[..i]);
      var fields := Split(s);
      assert fields[..|fields| - 1] == Split(s[..i]);
      assert s == s[..i] + ";" + s[i + 1..];
    }
  }

  lemma SplitOfBoth(a: string, b: string)
    requires LastSemicolon(b) == -1
    ensures Split(a + ";" + b) == Split(a) + [b]
  {
    var s := a + ";" + b;
    assert s[|a|] == ';' && forall j :: |a| < j < |s| ==> s[j] == b[j - |a| - 1];
    assert LastSemicolon(s) == |a|;
    assert s[..|a|] == a && s[|a| + 1..] == b;
  }

  /** Dropping the stamp leaves the floor where it was. */
  lemma KeptKeepsTheFloor(name: string, read: Reader)
    ensures Floor(Kept(name), read) == Floor(name, read)
  {
    var i := LastSemicolon(name);
    SplitThenJoin(name);
    var fields := Split(name);
    if IsStamp(fields[|fields| - 1]) {
      StampHoldsNoW(fields[|fields| - 1]);
      NothingStatedWithoutW(fields[|fields| - 1], read);
      if i >= 0 {
        SplitThenJoin(name[..i]);
        assert fields[..|fields| - 1] == Split(name[..i]);
        assert name == name[..i] + [';'] + name[i + 1..];
        WordsOfBoth(name[..i], ';', name[i + 1..]);
        StatedInEither(Words(name[..i]), Words(name[i + 1..]), read);
      } else {
        assert fields[..0] == [];
      }
    }
  }

  lemma StampKeepsTheFloor(kept: string, at: Nanoseconds, read: Reader)
    ensures Floor(kept + ";" + Print(at), read) == Floor(kept, read)
    ensures Floor(Print(at), read).None?
    ensures Kept(kept + ";" + Print(at)) == kept
    ensures Kept(Print(at)) == ""
  {
    PrintIsAStamp(at);
    NothingStatedWithoutW(Print(at), read);
    assert kept + ";" + Print(at) == kept + [';'] + Print(at);
    WordsOfBoth(kept, ';', Print(at));
    StatedInEither(Words(kept), Words(Print(at)), read);
    SplitOfBoth(kept, Print(at));
    SplitThenJoin(kept);
    var fields := Split(kept) + [Print(at)];
    assert fields[..|fields| - 1] == Split(kept);
    assert Split(Print(at))[..0] == [];
  }

  lemma RoundOfHundredths(h: int)
    ensures Round((h as real / 100.0) * 100.0) == h
  {
    assert (h as real / 100.0) * 100.0 == h as real;
  }

  lemma NameIsOneWord(floor: int)
    ensures Words(NameFor(floor)) == [NameFor(floor)]
    ensures HasPrefix(NameFor(floor)) && NameFor(floor)[|PREFIX|..] == PrintHundredths(floor)
  {
    HundredthsReadBack(floor);
    hide PrintHundredths, IsPlain, PlainHundredths, Words;
    var name, text := NameFor(floor), PrintHundredths(floor);
    forall i | 0 <= i < |name| ensures !Separator(name[i]) {
      if i >= |PREFIX| {
        assert name[i] == text[i - |PREFIX|];
      }
    }
    OneWord(name);
    assert name[..|PREFIX|] == PREFIX && name[|PREFIX|..] == text;
  }

  lemma NameForReadsBack(floor: int, read: Reader)
    requires ReadsDecimals(read)
    ensures Floor(NameFor(floor), read) == Some(floor)
  {
    HundredthsReadBack(floor);
    hide PrintHundredths, IsPlain, PlainHundredths, Words, NameFor, HasPrefix, Round;
    NameIsOneWord(floor);
    RoundOfHundredths(floor);
  }

  // ---------- the results ----------

  /** A renaming keeps the floor exactly when there is room for it: the whole name
      fits, or the floor alone does, or there was none to keep. */
  lemma FloorSurvivesRenaming(name: string, at: Nanoseconds, read: Reader)
    requires ReadsDecimals(read)
    ensures Floor(NameCarrying(name, at, read), read) == Floor(name, read) <==>
            Fits(Kept(name), at) || Floor(name, read).None? || Fits(NameFor(Floor(name, read).value), at)
  {
    KeptKeepsTheFloor(name, read);
    StampKeepsTheFloor(Kept(name), at, read);
    var floor := Floor(name, read);
    if floor.Some? {
      NameForReadsBack(floor.value, read);
      StampKeepsTheFloor(NameFor(floor.value), at, read);
    }
    assert Floor("", read).None?;
  }

  /** A name is never longer than the broker takes. */
  lemma NameNeverTooLong(name: string, at: Nanoseconds, read: Reader)
    ensures |NameCarrying(name, at, read)| <= NAME_LIMIT
  {
    PrintIsAStamp(at);
  }

  /** Names given at different moments differ: the broker refuses one it has seen. */
  lemma NamesDiffer(name: string, name': string, at: Nanoseconds, at': Nanoseconds, read: Reader)
    requires at != at'
    ensures NameCarrying(name, at, read) != NameCarrying(name', at', read)
  {
    EndsWithItsStamp(name, at, read);
    EndsWithItsStamp(name', at', read);
    StampsDiffer(at, at');
  }

  lemma EndsWithItsStamp(name: string, at: Nanoseconds, read: Reader)
    ensures var fields := Split(NameCarrying(name, at, read)); fields[|fields| - 1] == Print(at)
  {
    hide Kept, Floor, Split, Fits, Print, NameFor;
    PrintIsAStamp(at);
    NoSemicolonNoSplit(Print(at));
    var kept, floor := Kept(name), Floor(name, read);
    SplitOfBoth(kept, Print(at));
    if floor.Some? {
      SplitOfBoth(NameFor(floor.value), Print(at));
    }
  }

  lemma NameForIsNotEmpty(floor: int)
    ensures NameFor(floor) != ""
  {
  }

  lemma NoSemicolonNoSplit(s: string)
    ensures LastSemicolon(s) == -1 ==> Split(s) == [s]
  {
  }

  /** What a renaming carries over besides the stamp. */
  function Carried(name: string, at: Nanoseconds, read: Reader): string {
    var floor := Floor(name, read);
    if Fits(Kept(name), at) then Kept(name)
    else if floor.Some? && Fits(NameFor(floor.value), at) then NameFor(floor.value)
    else ""
  }

  function Stamped(carried: string, at: Nanoseconds): string {
    if carried == "" then Print(at) else carried + ";" + Print(at)
  }

  /** The second renaming finds no room for more than the first one left. */
  predicate NoRoomRegained(name: string, at: Nanoseconds, at': Nanoseconds, read: Reader) {
    |Carried(name, at', read)| <= |Carried(name, at, read)|
  }

  lemma StampedIsRead(carried: string, at: Nanoseconds, read: Reader)
    ensures Kept(Stamped(carried, at)) == carried
    ensures Floor(Stamped(carried, at), read) == Floor(carried, read)
  {
    assert Floor("", read).None?;
    hide Kept, Floor, Print;
    StampKeepsTheFloor(carried, at, read);
  }

  lemma CarriedIsRead(name: string, at: Nanoseconds, read: Reader)
    requires ReadsDecimals(read)
    ensures NameCarrying(name, at, read) == Stamped(Carried(name, at, read), at)
    ensures Carried(name, at, read) != "" ==> Floor(Carried(name, at, read), read) == Floor(name, read)
  {
    assert Floor("", read).None?;
    hide Kept, Floor, Print, NameFor;
    var floor := Floor(name, read);
    KeptKeepsTheFloor(name, read);
    if floor.Some? {
      NameForReadsBack(floor.value, read);
      NameForIsNotEmpty(floor.value);
    }
  }

  lemma CarriedAndStamped(name: string, at: Nanoseconds, read: Reader)
    requires ReadsDecimals(read)
    ensures NameCarrying(name, at, read) == Stamped(Carried(name, at, read), at)
    ensures Kept(NameCarrying(name, at, read)) == Carried(name, at, read)
    ensures Carried(name, at, read) != "" ==> Floor(NameCarrying(name, at, read), read) == Floor(name, read)
    ensures Carried(name, at, read) == "" ==> Floor(NameCarrying(name, at, read), read).None?
  {
    assert Floor("", read).None?;
    hide Kept, Floor, NameCarrying, Carried, Stamped;
    CarriedIsRead(name, at, read);
    StampedIsRead(Carried(name, at, read), at, read);
  }

  /** Stamps do not pile up. Renaming twice is renaming once, at the later moment, exactly
      when the later stamp makes no room for more than the earlier one left. */
  lemma RenamingTwiceExactlyWhen(name: string, at: Nanoseconds, at': Nanoseconds, read: Reader)
    requires ReadsDecimals(read)
    ensures NameCarrying(NameCarrying(name, at, read), at', read) == NameCarrying(name, at', read) <==>
            NoRoomRegained(name, at, at', read)
  {
    hide Kept, Floor, Print, NameFor, NameCarrying, ReadsDecimals;
    var once := NameCarrying(name, at, read);
    CarriedAndStamped(name, at, read);
    CarriedAndStamped(name, at', read);
    CarriedAndStamped(once, at', read);
    var floor := Floor(name, read);
    if floor.Some? {
      NameForIsNotEmpty(floor.value);
    }
  }

  /** With moments in their order, no later stamp is shorter, and it always is. */
  lemma RenamingTwiceIsRenamingOnce(name: string, at: Nanoseconds, at': Nanoseconds, read: Reader)
    requires ReadsDecimals(read)
    requires 0 <= at <= at'
    ensures NameCarrying(NameCarrying(name, at, read), at', read) == NameCarrying(name, at', read)
  {
    hide Kept, Floor, NameFor, NameCarrying, ReadsDecimals, Digits;
    MoreIsNoShorter(at, at');
    RenamingTwiceExactlyWhen(name, at, at', read);
  }

  lemma WholeNameIsKept(floor: int)
    ensures Kept(NameFor(floor)) == NameFor(floor)
  {
    var name := NameFor(floor);
    HundredthsReadBack(floor);
    assert name[0] == 'w';
    assert LastSemicolon(name) == -1 by {
      forall i | 0 <= i < |name| ensures name[i] != ';' {
        if i >= |PREFIX| {
          assert name[i] == PrintHundredths(floor)[i - |PREFIX|];
        }
      }
    }
    NoSemicolonNoSplit(name);
    if IsStamp(name) {
      StampHoldsNoW(name);
    }
  }

  /** A floor that with the shortest of stamps is too long for a name is lost by every
      renaming. */
  lemma TooLongIsLost(floor: int, at: Nanoseconds, read: Reader)
    requires ReadsDecimals(read) && |NameFor(floor)| + 2 > NAME_LIMIT
    ensures Floor(NameFor(floor), read) == Some(floor)
    ensures Floor(NameCarrying(NameFor(floor), at, read), read).None?
  {
    NameForReadsBack(floor, read);
    WholeNameIsKept(floor);
    PrintReadBack(at);
    CarriedAndStamped(NameFor(floor), at, read);
    hide Kept, Floor, NameFor, NameCarrying, Print, ReadsDecimals;
  }

  lemma WholeDollars(whole: nat)
    ensures |NameFor(100 * whole)| == |PREFIX| + |Digits(whole)| + 3
  {
    hide Digits;
    assert 100 * whole / 100 == whole;
  }

  /** There are such floors in names the broker takes: six letters, a hundred and nineteen
      digits, the point and two more are as long as a name may be. */
  lemma ALongestNameLosesItsFloor(at: Nanoseconds, read: Reader) returns (name: string)
    requires ReadsDecimals(read)
    ensures |name| == NAME_LIMIT && Floor(name, read).Some? && Floor(NameCarrying(name, at, read), read).None?
  {
    hide NameFor, Digits, Kept, Floor, NameCarrying, Power10;
    var whole := WithDigits(118);
    WholeDollars(whole);
    TooLongIsLost(100 * whole, at, read);
    name := NameFor(100 * whole);
  }

  lemma WithDigits(k: nat) returns (whole: nat)
    ensures |Digits(whole)| == k + 1
  {
    hide Digits;
    whole := Power10(k);
    OneAtLeast(k);
    AtLeastSoLong(whole, k);
    assert Power10(k + 1) == 10 * Power10(k);
    DigitsLength(whole, k + 1);
  }

  /** The name after a whole walk. */
  function Renamed(name: string, moments: seq<Nanoseconds>, read: Reader): string {
    if moments == [] then name
    else NameCarrying(Renamed(name, moments[..|moments| - 1], read), moments[|moments| - 1], read)
  }

  /** However many times the order is renamed, a floor short enough to print is still there. */
  lemma {:induction false} FloorSurvivesAnyWalk(name: string, moments: seq<Nanoseconds>, read: Reader)
    requires ReadsDecimals(read)
    requires Floor(name, read).Some? ==> |NameFor(Floor(name, read).value)| + 21 <= NAME_LIMIT
    ensures Floor(Renamed(name, moments, read), read) == Floor(name, read)
  {
    if moments == [] {
    } else {
      var before, at := Renamed(name, moments[..|moments| - 1], read), moments[|moments| - 1];
      FloorSurvivesAnyWalk(name, moments[..|moments| - 1], read);
      PrintIsAStamp(at);
      FloorSurvivesRenaming(before, at, read);
    }
  }
}
