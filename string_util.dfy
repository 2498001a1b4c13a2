/** `addCommas` of src/utils/string.ts: thousands separators in the integer
    part of a decimal string.

    The source splits on ".", runs the global regular-expression replace
    `/\B(?=(\d{3})+(?!\d))/g` with "," on the first part and joins the parts
    again. Here the split and join follow JavaScript's `String.prototype.split`
    and `Array.prototype.join` on a one-character separator, and the replace is
    modelled by the positions where the (zero-width) pattern matches: `,` is
    inserted at every such position. */
module StringUtil {

  /** `\d` without the `u` flag: an ASCII digit. */
  predicate IsDigit(ch: char) {
    '0' <= ch <= '9'
  }

  /** `\w`: an ASCII letter, digit or underscore. */
  predicate IsWordChar(ch: char) {
    IsDigit(ch) || 'a' <= ch <= 'z' || 'A' <= ch <= 'Z' || ch == '_'
  }

  predicate AllDigits(s: string) {
    forall i :: 0 <= i < |s| ==> IsDigit(s[i])
  }

  // ---------------------------------------------------------------------
  // split(".") and join(".")

  /** `s.split(sep)`: the pieces between the occurrences of `sep`. */
  function Split(s: string, sep: char): (parts: seq<string>)
    ensures |parts| >= 1
    ensures forall i :: 0 <= i < |parts| ==> sep !in parts[i]
    decreases |s|
  {
    if s == [] then [[]]
    else
      var rest := Split(s[1..], sep);
      if s[0] == sep then [[]] + rest
      else [[s[0]] + rest[0]] + rest[1..]
  }

  /** `parts.join(sep)`. */
  function Join(parts: seq<string>, sep: char): string
    decreases |parts|
  {
    if |parts| == 0 then []
    else if |parts| == 1 then parts[0]
    else parts[0] + [sep] + Join(parts[1..], sep)
  }

  /** Joining the pieces of a split gives back the string. */
  lemma {:induction false} JoinSplit(s: string, sep: char)
    ensures Join(Split(s, sep), sep) == s
    decreases |s|
  {
    if s != [] {
      var rest := Split(s[1..], sep);
      JoinSplit(s[1..], sep);
      if s[0] == sep {
        assert ([[]] + rest)[1..] == rest;
      } else {
        var parts := [[s[0]] + rest[0]] + rest[1..];
        assert parts[1..] == rest[1..];
        if |rest| > 1 {
          assert Join(rest, sep) == rest[0] + [sep] + Join(rest[1..], sep);
        }
      }
    }
  }

  /** Splitting the join of non-empty list of pieces free of `sep` gives back
      the pieces. */
  lemma {:induction false} SplitJoin(parts: seq<string>, sep: char)
    requires |parts| >= 1
    requires forall i :: 0 <= i < |parts| ==> sep !in parts[i]
    ensures Split(Join(parts, sep), sep) == parts
    decreases |parts|, |parts[0]|
  {
    if |parts[0]| > 0 {
      var head := parts[0];
      var shorter := parts[0 := head[1..]];
      SplitJoin(shorter, sep);
      JoinFirst(parts, head[1..], sep);
      var s := Join(parts, sep);
      assert s == [head[0]] + Join(shorter, sep);
      assert s[0] == head[0] && s[0] != sep;
      assert s[1..] == Join(shorter, sep);
      assert [head[0]] + head[1..] == head;
      assert [[s[0]] + shorter[0]] + shorter[1..] == parts;
    } else if |parts| > 1 {
      var s := Join(parts, sep);
      SplitJoin(parts[1..], sep);
      assert s == [sep] + Join(parts[1..], sep);
      assert s[1..] == Join(parts[1..], sep);
      assert [[]] + parts[1..] == parts;
    }
  }

  /** The join of pieces is the first piece followed by the rest. */
  lemma JoinFirst(parts: seq<string>, tail: string, sep: char)
    requires |parts| >= 1 && |parts[0]| > 0 && tail == parts[0][1..]
    ensures Join(parts, sep) == [parts[0][0]] + Join(parts[0 := tail], sep)
  {
    var shorter := parts[0 := tail];
    assert parts[0] == [parts[0][0]] + tail;
    if |parts| > 1 {
      assert shorter[1..] == parts[1..];
    }
  }

  /** The join of a list of pieces is its first piece followed by everything
      from the first separator on, which does not depend on the first piece. */
  lemma JoinReplaceFirst(parts: seq<string>, x: string, sep: char)
    requires |parts| >= 1
    ensures Join(parts[0 := x], sep) == x + Join(parts, sep)[|parts[0]|..]
    ensures Join(parts, sep) == parts[0] + Join(parts, sep)[|parts[0]|..]
  {
    if |parts| > 1 {
      assert parts[0 := x][1..] == parts[1..];
    }
  }

  // ---------------------------------------------------------------------
  // The pattern \B(?=(\d{3})+(?!\d))

  /** Whether position `i` of `s` holds a word character (positions outside
      the string do not). */
  predicate WordAt(s: string, i: int) {
    0 <= i < |s| && IsWordChar(s[i])
  }

  /** `\B` at position `p` (between `s[p-1]` and `s[p]`): both sides are word
      characters or neither is. */
  predicate NotBoundary(s: string, p: int) {
    WordAt(s, p - 1) == WordAt(s, p)
  }

  /** The length of the run of digits starting at position `p`. */
  function DigitRun(s: string, p: nat): (n: nat)
    requires p <= |s|
    ensures p + n <= |s|
    decreases |s| - p
  {
    if p < |s| && IsDigit(s[p]) then 1 + DigitRun(s, p + 1) else 0
  }

  /** The digit run is a run of digits that a non-digit or the end stops. */
  lemma {:induction false} DigitRunMaximal(s: string, p: nat)
    requires p <= |s|
    ensures forall q :: p <= q < p + DigitRun(s, p) ==> IsDigit(s[q])
    ensures p + DigitRun(s, p) == |s| || !IsDigit(s[p + DigitRun(s, p)])
    decreases |s| - p
  {
    if p < |s| && IsDigit(s[p]) {
      DigitRunMaximal(s, p + 1);
    }
  }

  /** `(\d{3})+(?!\d)` matches at `p` taking `k` groups: `3k` digits follow,
      and then no digit. */
  ghost predicate GroupsEnd(s: string, p: nat, k: nat) {
    && 1 <= k
    && p + 3 * k <= |s|
    && (forall q :: p <= q < p + 3 * k ==> IsDigit(s[q]))
    && (p + 3 * k == |s| || !IsDigit(s[p + 3 * k]))
  }

  /** The lookahead `(?=(\d{3})+(?!\d))` at `p`, as the pattern states it. */
  ghost predicate LookaheadMatches(s: string, p: nat) {
    exists k :: GroupsEnd(s, p, k)
  }

  /** Where the replace inserts a comma: `\B` holds and a positive multiple
      of three digits follows up to a non-digit or the end. */
  predicate CommaAt(s: string, p: nat)
    requires p <= |s|
  {
    NotBoundary(s, p) && DigitRun(s, p) > 0 && DigitRun(s, p) % 3 == 0
  }

  /** A run of digits ended by a non-digit or the end is the digit run. */
  lemma {:induction false} DigitRunExact(s: string, p: nat, m: nat)
    requires p + m <= |s|
    requires forall q :: p <= q < p + m ==> IsDigit(s[q])
    requires p + m == |s| || !IsDigit(s[p + m])
    ensures DigitRun(s, p) == m
    decreases m
  {
    if m > 0 {
      DigitRunExact(s, p + 1, m - 1);
    }
  }

  /** `CommaAt` is exactly where the pattern matches. */
  lemma CommaAtIsPattern(s: string, p: nat)
    requires p <= |s|
    ensures CommaAt(s, p) <==> NotBoundary(s, p) && LookaheadMatches(s, p)
  {
    var n := DigitRun(s, p);
    DigitRunMaximal(s, p);
    if n > 0 && n % 3 == 0 {
      assert GroupsEnd(s, p, n / 3);
    }
    if LookaheadMatches(s, p) {
      var k: nat :| GroupsEnd(s, p, k);
      DigitRunExact(s, p, 3 * k);
    }
  }

  /** No comma at the start of a string, at its end, or right after a
      leading sign or other non-word character. */
  lemma NoCommaAfterNonWord(s: string, p: nat)
    requires p <= |s|
    requires p == 0 || p == |s| || !IsWordChar(s[p - 1])
    ensures !CommaAt(s, p)
  {
  }

  // ---------------------------------------------------------------------
  // The global replace

  /** The output of the global replace from position `p` on: a comma where
      the pattern matches, then the character at that position. */
  function InsertFrom(s: string, p: nat): string
    requires p <= |s|
    decreases |s| - p
  {
    (if CommaAt(s, p) then "," else "")
    + (if p == |s| then "" else [s[p]] + InsertFrom(s, p + 1))
  }

  /** `s.replace(/\B(?=(\d{3})+(?!\d))/g, ",")`. */
  function ReplaceCommas(s: string): string {
    InsertFrom(s, 0)
  }

  /** `s` with every comma deleted. */
  function RemoveCommas(s: string): (r: string)
    ensures |r| <= |s|
  {
    if s == [] then []
    else (if s[0] == ',' then [] else [s[0]]) + RemoveCommas(s[1..])
  }

  /** No comma is left. */
  lemma {:induction false} RemoveCommasLeavesNone(s: string)
    ensures ',' !in RemoveCommas(s)
    decreases |s|
  {
    if s != [] {
      RemoveCommasLeavesNone(s[1..]);
    }
  }

  /** The number of commas in `s`. */
  function CountCommas(s: string): (n: nat)
    ensures n <= |s|
    ensures n == 0 <==> ',' !in s
  {
    if s == [] then 0
    else (if s[0] == ',' then 1 else 0) + CountCommas(s[1..])
  }

  lemma {:induction false} RemoveCommasAppend(a: string, b: string)
    ensures RemoveCommas(a + b) == RemoveCommas(a) + RemoveCommas(b)
    decreases |a|
  {
    if a != [] {
      assert (a + b)[1..] == a[1..] + b;
      RemoveCommasAppend(a[1..], b);
    } else {
      assert a + b == b;
    }
  }

  lemma {:induction false} CountCommasAppend(a: string, b: string)
    ensures CountCommas(a + b) == CountCommas(a) + CountCommas(b)
    decreases |a|
  {
    if a != [] {
      assert (a + b)[1..] == a[1..] + b;
      CountCommasAppend(a[1..], b);
    } else {
      assert a + b == b;
    }
  }

  lemma {:induction false} RemoveCommasNone(s: string)
    requires ',' !in s
    ensures RemoveCommas(s) == s
    decreases |s|
  {
    if s != [] {
      assert s[0] != ',';
      RemoveCommasNone(s[1..]);
    }
  }

  /** The replace only inserts commas. */
  lemma {:induction false} InsertFromRemove(s: string, p: nat)
    requires p <= |s|
    ensures RemoveCommas(InsertFrom(s, p)) == RemoveCommas(s[p..])
    decreases |s| - p
  {
    if p == |s| {
      assert !CommaAt(s, p);
    } else {
      var c: string := if CommaAt(s, p) then "," else "";
      var t := InsertFrom(s, p + 1);
      calc {
        RemoveCommas(InsertFrom(s, p));
        RemoveCommas(c + ([s[p]] + t));
        { RemoveCommasAppend(c, [s[p]] + t); }
        RemoveCommas(c) + RemoveCommas([s[p]] + t);
        { assert RemoveCommas(c) == []; }
        RemoveCommas([s[p]] + t);
        { RemoveCommasAppend([s[p]], t); }
        RemoveCommas([s[p]]) + RemoveCommas(t);
        { InsertFromRemove(s, p + 1); }
        RemoveCommas([s[p]]) + RemoveCommas(s[p + 1..]);
        { RemoveCommasAppend([s[p]], s[p + 1..]); assert [s[p]] + s[p + 1..] == s[p..]; }
        RemoveCommas(s[p..]);
      }
    }
  }

  /** The characters other than commas that the replace writes are those of
      the input: a character that is neither ',' nor in `s` is not in the
      result. */
  lemma ReplaceKeepsOthers(s: string, ch: char)
    requires ch != ','
    requires ch !in s
    ensures ch !in ReplaceCommas(s)
  {
    InsertFromRemove(s, 0);
    if ch in ReplaceCommas(s) {
      RemoveKeeps(ReplaceCommas(s), ch);
      assert s[0..] == s;
      RemoveOnlyDeletes(s, ch);
    }
  }

  lemma {:induction false} RemoveOnlyDeletes(s: string, ch: char)
    requires ch in RemoveCommas(s)
    ensures ch in s
    decreases |s|
  {
    if s[0] != ch {
      RemoveOnlyDeletes(s[1..], ch);
    }
  }

  lemma {:induction false} RemoveKeeps(s: string, ch: char)
    requires ch != ',' && ch in s
    ensures ch in RemoveCommas(s)
    decreases |s|
  {
    if s[0] != ch {
      RemoveKeeps(s[1..], ch);
    }
  }

  /** Where the pattern matches nowhere from `p` on, the output from `p`
      is the input from `p`. */
  lemma {:induction false} InsertFromNone(s: string, p: nat)
    requires p <= |s|
    requires forall q :: p <= q <= |s| ==> !CommaAt(s, q)
    ensures InsertFrom(s, p) == s[p..]
    decreases |s| - p
  {
    if p < |s| {
      InsertFromNone(s, p + 1);
      assert s[p..] == [s[p]] + s[p + 1..];
    }
  }

  /** A string of at most three characters is unchanged: a match needs a
      word character before it and three digits after it. */
  lemma ReplaceShort(s: string)
    requires |s| <= 3
    ensures ReplaceCommas(s) == s
  {
    InsertFromNone(s, 0);
  }

  /** The output from `k + p` in `t` equals the output from `p` in `s` when
      `s` is `t` from `k` on and the pattern matches at the same positions. */
  lemma {:induction false} InsertFromShift(t: string, s: string, k: nat, p: nat)
    requires k <= |t| && t[k..] == s
    requires p <= |s|
    requires forall q :: p <= q <= |s| ==> (CommaAt(t, k + q) <==> CommaAt(s, q))
    ensures InsertFrom(t, k + p) == InsertFrom(s, p)
    decreases |s| - p
  {
    if p < |s| {
      assert t[k + p] == s[p];
      InsertFromShift(t, s, k, p + 1);
    }
  }

  // ---------------------------------------------------------------------
  // Digit strings

  /** In a digit string, the pattern matches at the inner positions with a
      multiple of three digits to their right. */
  lemma DigitsCommaAt(d: string, p: nat)
    requires AllDigits(d)
    requires p <= |d|
    ensures CommaAt(d, p) <==> 0 < p < |d| && (|d| - p) % 3 == 0
  {
    DigitRunExact(d, p, |d| - p);
  }

  /** A digit string holds neither commas nor points. */
  lemma DigitsHaveNoSeparators(d: string)
    requires AllDigits(d)
    ensures ',' !in d && '.' !in d
  {
    assert forall i :: 0 <= i < |d| ==> d[i] != ',' && d[i] != '.';
  }

  /** Thousands grouping of a digit string, as a reference: the grouping of
      all but the last three digits, a comma, and the last three digits. */
  function GroupDigits(d: string): string
    requires AllDigits(d)
    decreases |d|
  {
    if |d| <= 3 then d
    else GroupDigits(d[..|d| - 3]) + "," + d[|d| - 3..]
  }

  /** The digits split into groups of three from the right; the first group
      has the one to three digits left over. */
  function Groups(d: string): (gs: seq<string>)
    requires AllDigits(d)
    ensures |gs| == if |d| == 0 then 1 else (|d| - 1) / 3 + 1
    ensures |d| > 0 ==> 1 <= |gs[0]| <= 3
    ensures forall i :: 1 <= i < |gs| ==> |gs[i]| == 3
    ensures forall i :: 0 <= i < |gs| ==> AllDigits(gs[i])
    decreases |d|
  {
    if |d| <= 3 then [d]
    else Groups(d[..|d| - 3]) + [d[|d| - 3..]]
  }

  /** Deleting the commas from the grouping gives back the digits. */
  lemma {:induction false} GroupDigitsRemove(d: string)
    requires AllDigits(d)
    ensures RemoveCommas(GroupDigits(d)) == d
    decreases |d|
  {
    if |d| <= 3 {
      DigitsHaveNoSeparators(d);
      RemoveCommasNone(d);
    } else {
      var a := d[..|d| - 3];
      var b := d[|d| - 3..];
      assert AllDigits(a) && AllDigits(b);
      GroupDigitsRemove(a);
      DigitsHaveNoSeparators(b);
      RemoveCommasNone(b);
      RemoveAroundComma(GroupDigits(a), b);
      assert a + b == d;
    }
  }

  /** Deleting the commas of `x + "," + y` deletes those of each side and
      the one between. */
  lemma RemoveAroundComma(x: string, y: string)
    ensures RemoveCommas(x + "," + y) == RemoveCommas(x) + RemoveCommas(y)
  {
    RemoveCommasAppend(x + ",", y);
    RemoveCommasAppend(x, ",");
    RemoveCommasOfComma();
  }

  lemma RemoveCommasOfComma()
    ensures RemoveCommas(",") == []
  {
    assert ","[1..] == [];
  }

  /** The grouping of `n >= 1` digits has `(n - 1) / 3` commas. */
  lemma {:induction false} GroupDigitsCount(d: string)
    requires AllDigits(d)
    ensures CountCommas(GroupDigits(d)) == if |d| == 0 then 0 else (|d| - 1) / 3
    decreases |d|
  {
    DigitsHaveNoSeparators(d);
    if |d| > 3 {
      var a := d[..|d| - 3];
      var b := d[|d| - 3..];
      GroupDigitsCount(a);
      CountCommasAppend(GroupDigits(a) + ",", b);
      CountCommasAppend(GroupDigits(a), ",");
      DigitsHaveNoSeparators(b);
    }
  }

  /** The grouping is the groups joined by commas. */
  lemma {:induction false} GroupDigitsJoin(d: string)
    requires AllDigits(d)
    ensures GroupDigits(d) == Join(Groups(d), ',')
    decreases |d|
  {
    if |d| > 3 {
      var a := d[..|d| - 3];
      GroupDigitsJoin(a);
      JoinSnoc(Groups(a), d[|d| - 3..], ',');
    }
  }

  /** Joining with one more piece at the end appends a separator and it. */
  lemma {:induction false} JoinSnoc(parts: seq<string>, x: string, sep: char)
    requires |parts| >= 1
    ensures Join(parts + [x], sep) == Join(parts, sep) + [sep] + x
    decreases |parts|
  {
    if |parts| > 1 {
      assert (parts + [x])[1..] == parts[1..] + [x];
      JoinSnoc(parts[1..], x, sep);
    } else {
      assert (parts + [x])[1..] == [x];
    }
  }

  /** The comma-separated parts of the grouping of a digit string are its
      groups of three from the right: the first holds one to three digits,
      every later one exactly three, so each comma has a multiple of three
      digits to its right. */
  lemma GroupDigitsParts(d: string)
    requires AllDigits(d)
    ensures Split(GroupDigits(d), ',') == Groups(d)
  {
    var gs := Groups(d);
    forall i | 0 <= i < |gs|
      ensures ',' !in gs[i]
    {
      DigitsHaveNoSeparators(gs[i]);
    }
    GroupDigitsJoin(d);
    SplitJoin(gs, ',');
  }

  /** On a digit string the replace is the thousands grouping. */
  lemma {:induction false} ReplaceDigits(d: string)
    requires AllDigits(d)
    ensures ReplaceCommas(d) == GroupDigits(d)
    decreases |d|
  {
    if |d| <= 3 {
      ReplaceShort(d);
    } else {
      var a := d[..|d| - 3];
      var b := d[|d| - 3..];
      ReplaceDigits(a);
      InsertSplitLast(d, 0);
    }
  }

  /** Over a digit string of more than three digits, the output from `p`
      (up to the last three digits) is the output over the string without
      its last three digits, then a comma, then those digits. */
  lemma {:induction false} InsertSplitLast(d: string, p: nat)
    requires AllDigits(d) && |d| > 3
    requires p <= |d| - 3
    ensures InsertFrom(d, p) == InsertFrom(d[..|d| - 3], p) + "," + d[|d| - 3..]
    decreases |d| - p
  {
    var a := d[..|d| - 3];
    var b := d[|d| - 3..];
    if p == |a| {
      InsertLastThree(d);
    } else {
      assert AllDigits(a);
      DigitsCommaAt(d, p);
      DigitsCommaAt(a, p);
      var c: string := if CommaAt(d, p) then "," else "";
      InsertSplitLast(d, p + 1);
      var t := InsertFrom(a, p + 1);
      InsertFromAt(d, p);
      InsertFromAt(a, p);
      assert a[p] == d[p];
      Regroup(c, [d[p]], t, b);
    }
  }

  /** One step of the replace: the comma if the pattern matches at `p`,
      then the character at `p`, then the rest. */
  lemma InsertFromAt(s: string, p: nat)
    requires p < |s|
    ensures InsertFrom(s, p) == (if CommaAt(s, p) then "," else "") + ([s[p]] + InsertFrom(s, p + 1))
  {
  }

  /** Concatenation is associative: the parentheses of the step above can
      move. */
  lemma Regroup(c: string, x: string, t: string, b: string)
    ensures c + (x + (t + "," + b)) == (c + (x + t)) + "," + b
  {
  }

  /** The output over the last three of more than three digits is a comma
      and those digits. */
  lemma InsertLastThree(d: string)
    requires AllDigits(d) && |d| > 3
    ensures InsertFrom(d, |d| - 3) == "," + d[|d| - 3..]
  {
    var n := |d|;
    DigitsCommaAt(d, n);
    DigitsCommaAt(d, n - 1);
    DigitsCommaAt(d, n - 2);
    InsertFromNone(d, n - 2);
    DigitsCommaAt(d, n - 3);
    InsertFromAt(d, n - 3);
    assert [d[n - 3]] + d[n - 2..] == d[n - 3..];
  }

  /** After a leading minus sign the replace groups the digits that follow. */
  lemma ReplaceSignedDigits(d: string)
    requires AllDigits(d)
    ensures ReplaceCommas("-" + d) == "-" + GroupDigits(d)
  {
    var t := "-" + d;
    assert t[1..] == d;
    forall q | 0 <= q <= |d|
      ensures CommaAt(t, 1 + q) <==> CommaAt(d, q)
    {
      DigitsCommaAt(d, q);
      if q > 0 {
        DigitRunExact(t, 1 + q, |d| - q);
      }
    }
    InsertFromShift(t, d, 1, 0);
    ReplaceDigits(d);
  }

  // ---------------------------------------------------------------------
  // addCommas

  /** `addCommas(numStr)`. */
  function AddCommas(numStr: string): string {
    var parts := Split(numStr, '.');
    Join(parts[0 := ReplaceCommas(parts[0])], '.')
  }

  /** The length of the integer part, the text before the first ".". */
  function IntegerPartLength(s: string): (k: nat)
    ensures k <= |s|
    ensures '.' !in s[..k]
    ensures k < |s| ==> s[k] == '.'
  {
    JoinSplit(s, '.');
    JoinReplaceFirst(Split(s, '.'), [], '.');
    |Split(s, '.')[0]|
  }

  /** `addCommas` rewrites the integer part and copies the rest, from the
      first "." on, unchanged. */
  lemma AddCommasShape(s: string)
    ensures var k := IntegerPartLength(s);
      AddCommas(s) == ReplaceCommas(s[..k]) + s[k..]
  {
    var parts := Split(s, '.');
    JoinSplit(s, '.');
    JoinReplaceFirst(parts, ReplaceCommas(parts[0]), '.');
  }

  /** The result splits into as many "."-separated parts as the input, and
      only the first one differs. */
  lemma AddCommasParts(s: string)
    ensures Split(AddCommas(s), '.') == Split(s, '.')[0 := ReplaceCommas(Split(s, '.')[0])]
  {
    var parts := Split(s, '.');
    ReplaceKeepsOthers(parts[0], '.');
    SplitJoin(parts[0 := ReplaceCommas(parts[0])], '.');
  }

  /** Deleting the commas from the result gives the input with its commas
      deleted; for input without commas, the input itself. */
  lemma AddCommasRemove(s: string)
    ensures RemoveCommas(AddCommas(s)) == RemoveCommas(s)
    ensures ',' !in s ==> RemoveCommas(AddCommas(s)) == s
  {
    var k := IntegerPartLength(s);
    var w, rest := s[..k], s[k..];
    AddCommasShape(s);
    InsertFromRemove(w, 0);
    assert w[0..] == w;
    calc {
      RemoveCommas(AddCommas(s));
      RemoveCommas(ReplaceCommas(w) + rest);
      { RemoveCommasAppend(ReplaceCommas(w), rest); }
      RemoveCommas(ReplaceCommas(w)) + RemoveCommas(rest);
      RemoveCommas(w) + RemoveCommas(rest);
      { RemoveCommasAppend(w, rest); }
      RemoveCommas(w + rest);
      { assert w + rest == s; }
      RemoveCommas(s);
    }
    if ',' !in s {
      RemoveCommasNone(s);
    }
  }

  /** An integer part of at most three characters is left alone. */
  lemma AddCommasShort(s: string)
    requires IntegerPartLength(s) <= 3
    ensures AddCommas(s) == s
  {
    var k := IntegerPartLength(s);
    AddCommasShape(s);
    ReplaceShort(s[..k]);
    assert s[..k] + s[k..] == s;
  }

  /** On the strings `toFixed` produces for a finite number below 1e21 in
      magnitude (an optional minus sign, digits, and optionally "." and more
      digits), `addCommas` groups the integer digits by thousands and keeps
      the sign and the fraction. */
  lemma AddCommasFixed(negative: bool, d: string, f: string)
    requires AllDigits(d) && AllDigits(f)
    ensures var sign := if negative then "-" else "";
      && AddCommas(sign + d + "." + f) == sign + GroupDigits(d) + "." + f
      && AddCommas(sign + d) == sign + GroupDigits(d)
  {
    var sign := if negative then "-" else "";
    var w := sign + d;
    SignedDigitsNoDot(sign, d);
    ReplaceSigned(negative, d);
    AddCommasSplitAt(w, "." + f);
    AddCommasSplitAt(w, "");
    assert sign + d + "." + f == w + ("." + f);
    assert w + "" == w;
    assert sign + GroupDigits(d) + "." + f == (sign + GroupDigits(d)) + ("." + f);
  }

  /** A sign followed by digits has no ".". */
  lemma SignedDigitsNoDot(sign: string, d: string)
    requires sign == "" || sign == "-"
    requires AllDigits(d)
    ensures '.' !in sign + d
  {
    DigitsHaveNoSeparators(d);
  }

  /** The replace over an optionally signed digit string groups the digits. */
  lemma ReplaceSigned(negative: bool, d: string)
    requires AllDigits(d)
    ensures var sign := if negative then "-" else "";
      ReplaceCommas(sign + d) == sign + GroupDigits(d)
  {
    if negative {
      ReplaceSignedDigits(d);
    } else {
      assert "" + d == d;
      assert "" + GroupDigits(d) == GroupDigits(d);
      ReplaceDigits(d);
    }
  }

  /** A string made of a part without "." and a rest that is empty or starts
      with ".": `addCommas` rewrites the part and keeps the rest. */
  lemma AddCommasSplitAt(w: string, rest: string)
    requires '.' !in w
    requires rest == [] || rest[0] == '.'
    ensures AddCommas(w + rest) == ReplaceCommas(w) + rest
  {
    IntegerPartOf(w, rest);
    AddCommasShape(w + rest);
    assert (w + rest)[..|w|] == w && (w + rest)[|w|..] == rest;
  }

  /** The integer part of `w + rest` is `w` when `w` has no "." and `rest` is
      empty or starts with ".". */
  lemma {:induction false} IntegerPartOf(w: string, rest: string)
    requires '.' !in w
    requires rest == [] || rest[0] == '.'
    ensures IntegerPartLength(w + rest) == |w|
    decreases |w|
  {
    if w == [] {
      assert w + rest == rest;
    } else {
      IntegerPartOf(w[1..], rest);
      assert (w + rest)[1..] == w[1..] + rest;
    }
  }
}
