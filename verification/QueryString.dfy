/**
  Dropping empty query parameters by regular expressions (frontend/src/api.js).

  A global replacement scans from the left: where the pattern matches, the match goes and the scan continues behind
  it; elsewhere one character is kept.
*/
module QueryString {
  import opened Prelude

  const UNDEFINED := "undefined"

  /** What follows the equals sign: an ampersand or the end, or the word undefined or the end. */
  datatype Tail = EndOfParameter | UndefinedValue

  function TailLength(tail: Tail, s: string): Option<nat> {
    match tail
    case EndOfParameter => if s == "" then Some(0) else if s[0] == '&' then Some(1) else None
    case UndefinedValue => if UNDEFINED <= s then Some(|UNDEFINED|) else if s == "" then Some(0) else None
  }

  /** The length of the longest start of s without '=' and '&'. */
  function RunLength(s: string): (n: nat)
    ensures n <= |s|
    ensures forall i :: 0 <= i < n ==> s[i] != '=' && s[i] != '&'
    ensures n < |s| ==> s[n] == '=' || s[n] == '&'
  {
    if s == "" || s[0] == '=' || s[0] == '&' then 0 else 1 + RunLength(s[1..])
  }

  /** The length of the match at the start of s, if there is one: a run of other characters, '=' and the tail. */
  function MatchLength(tail: Tail, s: string): (r: Option<nat>)
    ensures r.Some? ==> 0 < r.value <= |s|
  {
    var n := RunLength(s);
    if n > 0 && n < |s| && s[n] == '=' && TailLength(tail, s[n + 1..]).Some?
    then Some(n + 1 + TailLength(tail, s[n + 1..]).value)
    else None
  }

  function RemoveAll(tail: Tail, s: string): string
    decreases |s|
  {
    if s == "" then "" else
      var m := MatchLength(tail, s);
      if m.Some? then RemoveAll(tail, s[m.value..]) else [s[0]] + RemoveAll(tail, s[1..])
  }

  function DropLastAmpersand(s: string): string {
    if s != "" && s[|s| - 1] == '&' then s[..|s| - 1] else s
  }

  function RemoveEmptyQueryParams(url: string): string {
    DropLastAmpersand(RemoveAll(UndefinedValue, RemoveAll(EndOfParameter, url)))
  }

  // ---------------------------------------------------------------- parameters

  /** The pieces between ampersands. */
  function Split(s: string): (r: seq<string>)
    ensures |r| > 0
  {
    if s == "" then [""]
    else if s[0] == '&' then [""] + Split(s[1..])
    else var rest := Split(s[1..]); [[s[0]] + rest[0]] + rest[1..]
  }

  function Join(pieces: seq<string>): string {
    if pieces == [] then "" else if |pieces| == 1 then pieces[0] else pieces[0] + "&" + Join(pieces[1..])
  }

  predicate NoAmpersand(piece: string) {
    forall i :: 0 <= i < |piece| ==> piece[i] != '&'
  }

  /** A nonempty name, an equals sign and then exactly this value. */
  predicate Has(piece: string, value: string) {
    var n := RunLength(piece);
    n > 0 && n < |piece| && piece[n] == '=' && piece[n + 1..] == value
  }

  /** A nonempty name and a value that starts with the word undefined. */
  predicate StartsUndefined(piece: string) {
    var n := RunLength(piece);
    0 < n < |piece| && piece[n] == '=' && UNDEFINED <= piece[n + 1..]
  }

  /** Somewhere in the piece a nonempty name and an equals sign start that end the piece. */
  predicate EndsEmpty(piece: string) {
    piece != "" && (Has(piece, "") || EndsEmpty(piece[1..]))
  }

  /** Somewhere in the piece a nonempty name starts whose value starts with the word undefined. */
  predicate MeetsUndefined(piece: string) {
    piece != "" && (StartsUndefined(piece) || MeetsUndefined(piece[1..]))
  }

  /** The piece without the last name and equals sign. */
  function CutOff(piece: string): string
    requires EndsEmpty(piece)
  {
    if Has(piece, "") then "" else [piece[0]] + CutOff(piece[1..])
  }

  function Equals(s: string): nat {
    if s == "" then 0 else (if s[0] == '=' then 1 else 0) + Equals(s[1..])
  }

  /** The parameters that should stay. */
  predicate Kept(piece: string) {
    !Has(piece, "") && !Has(piece, UNDEFINED)
  }

  /** A parameter that should stay and does not: its value merely starts with undefined, or it holds a second '='. */
  predicate Disturbed(piece: string) {
    Kept(piece) && (EndsEmpty(piece) || MeetsUndefined(piece))
  }

  function OnlyKept(pieces: seq<string>): seq<string> {
    if pieces == [] then [] else (if Kept(pieces[0]) then [pieces[0]] else []) + OnlyKept(pieces[1..])
  }

  function NonEmpty(pieces: seq<string>): seq<string> {
    if pieces == [] then [] else IfNonEmpty(pieces[0]) + NonEmpty(pieces[1..])
  }

  function IfNonEmpty(piece: string): seq<string> {
    if piece == "" then [] else [piece]
  }

  // ---------------------------------------------------------------- one scan, piece by piece

  /** What can follow a piece in a query. */
  predicate Boundary(rest: string) {
    rest == "" || rest[0] == '&'
  }

  lemma {:induction false} RunLengthAppend(piece: string, rest: string)
    requires NoAmpersand(piece) && Boundary(rest)
    ensures RunLength(piece + rest) == RunLength(piece)
  {
    if piece == "" {
      assert piece + rest == rest;
    } else if piece[0] != '=' {
      assert NoAmpersand(piece[1..]);
      RunLengthAppend(piece[1..], rest);
      assert (piece + rest)[1..] == piece[1..] + rest;
    }
  }

  lemma ScanOne(tail: Tail, s: string)
    requires s != "" && MatchLength(tail, s) == None
    ensures RemoveAll(tail, s) == [s[0]] + RemoveAll(tail, s[1..])
  {
  }

  /** Scanning a nonempty piece whose start does not match comes down to scanning the rest of it. */
  lemma ScanOneOfPiece(tail: Tail, piece: string, rest: string, left: string, later: string)
    requires piece != "" && MatchLength(tail, piece + rest) == None
    requires RemoveAll(tail, piece[1..] + rest) == left + later
    ensures RemoveAll(tail, piece + rest) == [piece[0]] + left + later
  {
    ScanOne(tail, piece + rest);
    assert (piece + rest)[1..] == piece[1..] + rest;
    ConcatAssoc([piece[0]], left, later);
  }

  lemma FirstAndRest(piece: string)
    requires piece != ""
    ensures [piece[0]] + piece[1..] == piece
  {
  }

  lemma SuffixOfAppend(piece: string, rest: string, n: nat)
    requires n <= |piece|
    ensures (piece + rest)[n..] == piece[n..] + rest
  {
  }

  lemma NoFirstMatch(piece: string, rest: string)
    requires NoAmpersand(piece) && Boundary(rest) && !Has(piece, "")
    ensures MatchLength(EndOfParameter, piece + rest) == None
  {
    var n := RunLength(piece);
    RunLengthAppend(piece, rest);
    if n > 0 && n < |piece| && piece[n] == '=' {
      assert (piece + rest)[n + 1..] == piece[n + 1..] + rest;
      assert piece[n + 1..] != "" && piece[n + 1..][0] != '&';
    }
  }

  lemma NoSecondMatch(piece: string, rest: string)
    requires NoAmpersand(piece) && Boundary(rest) && !Has(piece, "") && !StartsUndefined(piece)
    ensures MatchLength(UndefinedValue, piece + rest) == None
  {
    var n := RunLength(piece);
    RunLengthAppend(piece, rest);
    if n > 0 && n < |piece| && piece[n] == '=' {
      assert (piece + rest)[n + 1..] == piece[n + 1..] + rest;
      NotUndefined(piece[n + 1..], rest);
    }
  }

  /** A piece that does not end in an empty value passes the first scan unchanged. */
  lemma {:induction false} FirstScanKeeps(piece: string, rest: string)
    requires NoAmpersand(piece) && Boundary(rest) && !EndsEmpty(piece)
    ensures RemoveAll(EndOfParameter, piece + rest) == piece + RemoveAll(EndOfParameter, rest)
  {
    if piece == "" {
      assert piece + rest == rest;
    } else {
      NoFirstMatch(piece, rest);
      FirstScanKeeps(piece[1..], rest);
      ScanOneOfPiece(EndOfParameter, piece, rest, piece[1..], RemoveAll(EndOfParameter, rest));
      FirstAndRest(piece);
    }
  }

  /** A piece with an empty value goes, and the ampersand behind it with it. */
  lemma FirstScanDrops(piece: string, rest: string)
    requires NoAmpersand(piece) && Boundary(rest) && Has(piece, "")
    ensures RemoveAll(EndOfParameter, piece + rest) == RemoveAll(EndOfParameter, if rest == "" then "" else rest[1..])
  {
    var s, n := piece + rest, RunLength(piece);
    RunLengthAppend(piece, rest);
    assert s[n + 1..] == rest;
    var m := MatchLength(EndOfParameter, s);
    assert m == Some(if rest == "" then |piece| else |piece| + 1);
    assert s[m.value..] == if rest == "" then "" else rest[1..];
  }

  /** Of a piece that ends in an empty value the last name goes, and the ampersand behind the piece with it. */
  lemma {:induction false} FirstScanCuts(piece: string, rest: string)
    requires NoAmpersand(piece) && Boundary(rest) && EndsEmpty(piece)
    ensures RemoveAll(EndOfParameter, piece + rest) ==
            CutOff(piece) + RemoveAll(EndOfParameter, if rest == "" then "" else rest[1..])
  {
    var later := RemoveAll(EndOfParameter, if rest == "" then "" else rest[1..]);
    if Has(piece, "") {
      FirstScanDrops(piece, rest);
      assert "" + later == later;
    } else {
      NoFirstMatch(piece, rest);
      FirstScanCuts(piece[1..], rest);
      ScanOneOfPiece(EndOfParameter, piece, rest, CutOff(piece[1..]), later);
    }
  }

  /** The second scan leaves a piece alone in which nothing starts that it removes. */
  lemma {:induction false} SecondScanKeeps(piece: string, rest: string)
    requires NoAmpersand(piece) && Boundary(rest) && !EndsEmpty(piece) && !MeetsUndefined(piece)
    ensures RemoveAll(UndefinedValue, piece + rest) == piece + RemoveAll(UndefinedValue, rest)
  {
    if piece == "" {
      assert piece + rest == rest;
    } else {
      NoSecondMatch(piece, rest);
      SecondScanKeeps(piece[1..], rest);
      ScanOneOfPiece(UndefinedValue, piece, rest, piece[1..], RemoveAll(UndefinedValue, rest));
      FirstAndRest(piece);
    }
  }

  lemma NotUndefined(value: string, rest: string)
    requires value != "" && !(UNDEFINED <= value) && NoAmpersand(value) && Boundary(rest)
    ensures TailLength(UndefinedValue, value + rest) == None
  {
    var s := value + rest;
    if |value| >= |UNDEFINED| {
      assert s[..|UNDEFINED|] == value[..|UNDEFINED|];
    } else if rest != "" {
      assert s[|value|] == '&';
      assert NoAmpersand(UNDEFINED);
      assert UNDEFINED[|value|] != '&';
    }
  }

  lemma ScanMatch(tail: Tail, s: string, n: nat)
    requires s != "" && MatchLength(tail, s) == Some(n)
    ensures n <= |s| && RemoveAll(tail, s) == RemoveAll(tail, s[n..])
  {
  }

  /** A match of the second scan lies within its piece and takes one equals sign. */
  ghost predicate TakesOne(piece: string, m: Option<nat>) {
    && (StartsUndefined(piece) ==> m.Some?)
    && (m.Some? ==> 0 < m.value <= |piece| && Equals(piece) == 1 + Equals(piece[m.value..]))
  }

  lemma SecondMatchInside(piece: string, rest: string)
    requires NoAmpersand(piece) && Boundary(rest)
    ensures piece != "" ==> TakesOne(piece, MatchLength(UndefinedValue, piece + rest))
  {
    if StartsUndefined(piece) {
      UndefinedMatches(piece, rest);
      UndefinedEquals(piece);
    } else if Has(piece, "") {
      EmptyMatches(piece, rest);
      EqualsRun(piece, RunLength(piece));
    } else {
      NoSecondMatch(piece, rest);
    }
  }

  lemma EmptyMatches(piece: string, rest: string)
    requires NoAmpersand(piece) && Boundary(rest) && Has(piece, "")
    ensures MatchLength(UndefinedValue, piece + rest) == if rest == "" then Some(|piece|) else None
  {
    RunLengthAppend(piece, rest);
    assert (piece + rest)[RunLength(piece) + 1..] == rest;
    assert rest != "" ==> UNDEFINED[0] != rest[0];
  }

  lemma UndefinedMatches(piece: string, rest: string)
    requires NoAmpersand(piece) && Boundary(rest) && StartsUndefined(piece)
    ensures MatchLength(UndefinedValue, piece + rest) == Some(RunLength(piece) + 1 + |UNDEFINED|)
  {
    var n := RunLength(piece);
    RunLengthAppend(piece, rest);
    SuffixOfAppend(piece, rest, n + 1);
    PrefixAppend(UNDEFINED, piece[n + 1..], rest);
    MatchAt(piece + rest);
  }

  lemma MatchAt(s: string)
    requires StartsUndefined(s)
    ensures MatchLength(UndefinedValue, s) == Some(RunLength(s) + 1 + |UNDEFINED|)
  {
  }

  lemma PrefixAppend(start: string, s: string, more: string)
    requires start <= s
    ensures start <= s + more
  {
    assert (s + more)[..|start|] == s[..|start|];
  }

  lemma UndefinedEquals(piece: string)
    requires StartsUndefined(piece)
    ensures Equals(piece) == 1 + Equals(piece[RunLength(piece) + 1 + |UNDEFINED|..])
  {
    var n := RunLength(piece);
    var value := piece[n + 1..];
    EqualsRun(piece, n);
    EqualsNone(UNDEFINED);
    EqualsAppend(UNDEFINED, value[|UNDEFINED|..]);
    assert value == UNDEFINED + value[|UNDEFINED|..];
    assert value[|UNDEFINED|..] == piece[n + 1 + |UNDEFINED|..];
  }

  /** Of a name, an equals sign and a value, the value holds all further equals signs. */
  lemma EqualsRun(piece: string, n: nat)
    requires n == RunLength(piece) < |piece| && piece[n] == '='
    ensures Equals(piece) == 1 + Equals(piece[n + 1..])
  {
    assert piece == piece[..n] + piece[n..];
    EqualsAppend(piece[..n], piece[n..]);
    EqualsNone(piece[..n]);
    assert piece[n..][1..] == piece[n + 1..];
  }

  lemma {:induction false} EqualsNone(s: string)
    requires forall i :: 0 <= i < |s| ==> s[i] != '='
    ensures Equals(s) == 0
  {
    if s != "" {
      EqualsNone(s[1..]);
    }
  }

  lemma {:induction false} EqualsAppend(a: string, b: string)
    ensures Equals(a + b) == Equals(a) + Equals(b)
  {
    if a == "" {
      assert a + b == b;
    } else {
      EqualsAppend(a[1..], b);
      assert (a + b)[1..] == a[1..] + b;
    }
  }

  /** The equals signs that the second scan leaves. */
  function Left(s: string): nat {
    Equals(RemoveAll(UndefinedValue, s))
  }

  lemma LeftOne(s: string)
    requires s != ""
    ensures var m := MatchLength(UndefinedValue, s);
            Left(s) == if m.Some? then Left(s[m.value..]) else Equals([s[0]]) + Left(s[1..])
  {
    if MatchLength(UndefinedValue, s).None? {
      EqualsAppend([s[0]], RemoveAll(UndefinedValue, s[1..]));
    }
  }

  lemma EqualsOne(s: string)
    requires s != ""
    ensures Equals(s) == Equals([s[0]]) + Equals(s[1..])
  {
    assert [s[0]][1..] == "";
  }

  /** The second scan takes at least one equals sign from every piece in which an undefined value starts. */
  lemma {:induction false} SecondScanTakes(piece: string, rest: string)
    requires NoAmpersand(piece) && Boundary(rest)
    ensures Left(piece + rest) + (if MeetsUndefined(piece) then 1 else 0) <= Equals(piece) + Left(rest)
    decreases |piece|
  {
    if piece == "" {
      assert piece + rest == rest;
    } else {
      SecondMatchInside(piece, rest);
      LeftOne(piece + rest);
      EqualsOne(piece);
      var m := MatchLength(UndefinedValue, piece + rest);
      var n := if m.Some? then m.value else 1;
      assert (piece + rest)[n..] == piece[n..] + rest;
      SecondScanTakes(piece[n..], rest);
    }
  }

  lemma ScanAmpersand(tail: Tail, rest: string)
    ensures RemoveAll(tail, "&" + rest) == "&" + RemoveAll(tail, rest)
  {
    assert RunLength("&" + rest) == 0;
    assert ("&" + rest)[1..] == rest;
  }

  // ---------------------------------------------------------------- the scans on a whole query

  /** The pieces after the first scan: a cut piece is joined to what follows it. */
  function FirstPass(pieces: seq<string>): (r: seq<string>)
    requires pieces != []
    ensures r != []
  {
    var piece := pieces[0];
    if |pieces| == 1 then [if EndsEmpty(piece) then CutOff(piece) else piece]
    else
      var rest := FirstPass(pieces[1..]);
      if EndsEmpty(piece) then [CutOff(piece) + rest[0]] + rest[1..] else [piece] + rest
  }

  lemma JoinCons(piece: string, rest: seq<string>)
    requires rest != []
    ensures Join([piece] + rest) == piece + ("&" + Join(rest))
  {
    assert ([piece] + rest)[1..] == rest;
    ConcatAssoc(piece, "&", Join(rest));
  }

  lemma JoinOnto(front: string, pieces: seq<string>)
    requires pieces != []
    ensures Join([front + pieces[0]] + pieces[1..]) == front + Join(pieces)
  {
    if |pieces| > 1 {
      JoinCons(front + pieces[0], pieces[1..]);
      JoinCons(pieces[0], pieces[1..]);
      assert pieces == [pieces[0]] + pieces[1..];
      ConcatAssoc(front, pieces[0], "&" + Join(pieces[1..]));
    }
  }

  lemma FirstScanLast(piece: string)
    requires NoAmpersand(piece)
    ensures RemoveAll(EndOfParameter, piece) == if EndsEmpty(piece) then CutOff(piece) else piece
  {
    assert piece + "" == piece && RemoveAll(EndOfParameter, "") == "";
    if EndsEmpty(piece) {
      FirstScanCuts(piece, "");
      assert CutOff(piece) + "" == CutOff(piece);
    } else {
      FirstScanKeeps(piece, "");
    }
  }

  lemma FirstScanMore(piece: string, rest: string)
    requires NoAmpersand(piece)
    ensures RemoveAll(EndOfParameter, piece + ("&" + rest)) ==
            if EndsEmpty(piece) then CutOff(piece) + RemoveAll(EndOfParameter, rest)
            else piece + ("&" + RemoveAll(EndOfParameter, rest))
  {
    if EndsEmpty(piece) {
      FirstScanCuts(piece, "&" + rest);
      assert ("&" + rest)[1..] == rest;
    } else {
      FirstScanKeeps(piece, "&" + rest);
      ScanAmpersand(EndOfParameter, rest);
    }
  }

  lemma {:induction false} FirstScan(pieces: seq<string>)
    requires Pieces(pieces)
    ensures RemoveAll(EndOfParameter, Join(pieces)) == Join(FirstPass(pieces))
  {
    var piece := pieces[0];
    if |pieces| == 1 {
      FirstScanLast(piece);
    } else {
      var rest := pieces[1..];
      assert pieces == [piece] + rest;
      JoinCons(piece, rest);
      FirstScan(rest);
      FirstScanMore(piece, Join(rest));
      if EndsEmpty(piece) {
        JoinOnto(CutOff(piece), FirstPass(rest));
      } else {
        JoinCons(piece, FirstPass(rest));
      }
    }
  }

  // ---- a query without disturbed pieces

  /** The pieces after the second scan, if none is disturbed. */
  function SecondPass(pieces: seq<string>): (r: seq<string>)
    ensures |r| == |pieces|
    ensures forall i :: 0 <= i < |r| ==> r[i] == "" || r[i] in pieces
  {
    if pieces == [] then [] else [SecondOf(pieces[0])] + SecondPass(pieces[1..])
  }

  /** Neither scan changes such a piece, or the second removes all of it. */
  ghost predicate Plain(piece: string) {
    NoAmpersand(piece) && !EndsEmpty(piece) && (MeetsUndefined(piece) ==> Has(piece, UNDEFINED))
  }

  lemma {:induction false} SecondScan(pieces: seq<string>)
    requires pieces != [] && forall i :: 0 <= i < |pieces| ==> Plain(pieces[i])
    ensures RemoveAll(UndefinedValue, Join(pieces)) == Join(SecondPass(pieces))
  {
    var piece := pieces[0];
    var rest := if |pieces| == 1 then "" else "&" + Join(pieces[1..]);
    assert Plain(piece);
    if Has(piece, UNDEFINED) {
      SecondScanDrops(piece, rest);
    } else {
      SecondScanKeeps(piece, rest);
    }
    if |pieces| == 1 {
      assert piece + "" == piece;
      assert RemoveAll(UndefinedValue, "") == "";
    } else {
      assert pieces == [piece] + pieces[1..];
      JoinCons(piece, pieces[1..]);
      SecondScan(pieces[1..]);
      ScanAmpersand(UndefinedValue, Join(pieces[1..]));
      JoinCons(SecondPass(pieces)[0], SecondPass(pieces[1..]));
      assert SecondPass(pieces) == [SecondPass(pieces)[0]] + SecondPass(pieces[1..]);
    }
  }

  /** A piece that is a name, an equals sign and the word undefined goes; the ampersand behind it stays. */
  lemma SecondScanDrops(piece: string, rest: string)
    requires NoAmpersand(piece) && Boundary(rest) && Has(piece, UNDEFINED)
    ensures RemoveAll(UndefinedValue, piece + rest) == RemoveAll(UndefinedValue, rest)
  {
    assert piece[RunLength(piece) + 1..] == UNDEFINED;
    UndefinedMatches(piece, rest);
    ScanMatch(UndefinedValue, piece + rest, |piece|);
    assert (piece + rest)[|piece|..] == rest;
  }

  lemma DroppedWhole(piece: string)
    requires !Kept(piece)
    ensures Has(piece, "") ==> EndsEmpty(piece) && CutOff(piece) == ""
    ensures Has(piece, UNDEFINED) ==> MeetsUndefined(piece) && !EndsEmpty(piece)
  {
    if Has(piece, UNDEFINED) {
      assert piece[|piece| - 1] == piece[RunLength(piece) + 1..][|UNDEFINED| - 1];
      NoEmptyEnd(piece);
    }
  }

  lemma DroppedEquals(piece: string)
    requires !Kept(piece)
    ensures Equals(piece) == 1
  {
    var n := RunLength(piece);
    var value := if Has(piece, "") then "" else UNDEFINED;
    assert n > 0 && n < |piece| && piece[n] == '=' && piece[n + 1..] == value;
    assert forall i :: 0 <= i < |value| ==> value[i] != '=';
    EqualsRun(piece, n);
    EqualsNone(value);
  }

  lemma {:induction false} NoEmptyEnd(piece: string)
    requires piece != "" && piece[|piece| - 1] != '='
    ensures !EndsEmpty(piece)
  {
    if |piece| > 1 {
      NoEmptyEnd(piece[1..]);
    }
  }

  lemma OnlyKeptCons(pieces: seq<string>)
    requires pieces != []
    ensures OnlyKept(pieces) == if Kept(pieces[0]) then [pieces[0]] + OnlyKept(pieces[1..]) else OnlyKept(pieces[1..])
  {
  }

  lemma NonEmptyCons(piece: string, rest: seq<string>)
    ensures NonEmpty([piece] + rest) == IfNonEmpty(piece) + NonEmpty(rest)
  {
    assert ([piece] + rest)[1..] == rest;
  }

  function SecondOf(piece: string): string {
    if Has(piece, UNDEFINED) then "" else piece
  }

  lemma SecondPassCons(piece: string, rest: seq<string>)
    ensures SecondPass([piece] + rest) == [SecondOf(piece)] + SecondPass(rest)
  {
    assert ([piece] + rest)[1..] == rest;
  }

  /** One more piece in front, none being disturbed. */
  lemma FirstPassCons(pieces: seq<string>)
    requires Pieces(pieces) && |pieces| > 1 && !Disturbed(pieces[0])
    ensures var rest := FirstPass(pieces[1..]);
            FirstPass(pieces) == if Has(pieces[0], "") then rest else [pieces[0]] + rest
  {
    if !Kept(pieces[0]) {
      DroppedWhole(pieces[0]);
    }
    var rest := FirstPass(pieces[1..]);
    if Has(pieces[0], "") {
      assert CutOff(pieces[0]) + rest[0] == rest[0];
      assert [rest[0]] + rest[1..] == rest;
    }
  }

  lemma {:induction false} PassesKeep(pieces: seq<string>)
    requires Pieces(pieces) && forall i :: 0 <= i < |pieces| ==> !Disturbed(pieces[i])
    ensures NonEmpty(SecondPass(FirstPass(pieces))) == NonEmpty(OnlyKept(pieces))
  {
    var piece := pieces[0];
    assert !Disturbed(piece);
    OnlyKeptCons(pieces);
    if !Kept(piece) {
      DroppedWhole(piece);
    }
    if |pieces| > 1 {
      FirstPassCons(pieces);
      PassesKeep(pieces[1..]);
      SecondPassCons(piece, FirstPass(pieces[1..]));
      NonEmptyCons(SecondOf(piece), SecondPass(FirstPass(pieces[1..])));
      NonEmptyCons(piece, OnlyKept(pieces[1..]));
    } else {
      assert FirstPass(pieces) == [if Has(piece, "") then "" else piece];
      SecondPassCons(FirstPass(pieces)[0], []);
      assert !Has("", UNDEFINED);
    }
  }

  lemma {:induction false} FirstPassPlain(pieces: seq<string>)
    requires Pieces(pieces) && forall i :: 0 <= i < |pieces| ==> !Disturbed(pieces[i])
    ensures forall i :: 0 <= i < |FirstPass(pieces)| ==> Plain(FirstPass(pieces)[i])
  {
    var piece := pieces[0];
    assert !Disturbed(piece) && NoAmpersand(piece);
    if !Kept(piece) {
      DroppedWhole(piece);
    }
    if |pieces| > 1 {
      FirstPassCons(pieces);
      FirstPassPlain(pieces[1..]);
    }
  }

  // ---- counting equals signs: every removal takes one

  function Total(pieces: seq<string>): nat {
    if pieces == [] then 0 else Equals(pieces[0]) + Total(pieces[1..])
  }

  predicate Hit(piece: string) {
    EndsEmpty(piece) || MeetsUndefined(piece)
  }

  function Hits(pieces: seq<string>): nat {
    if pieces == [] then 0 else (if Hit(pieces[0]) then 1 else 0) + Hits(pieces[1..])
  }

  function Meetings(pieces: seq<string>): nat {
    if pieces == [] then 0 else (if MeetsUndefined(pieces[0]) then 1 else 0) + Meetings(pieces[1..])
  }

  lemma {:induction false} TotalJoin(pieces: seq<string>)
    ensures Equals(Join(pieces)) == Total(pieces)
  {
    if |pieces| > 1 {
      TotalJoin(pieces[1..]);
      assert pieces == [pieces[0]] + pieces[1..];
      JoinCons(pieces[0], pieces[1..]);
      EqualsAppend(pieces[0], "&" + Join(pieces[1..]));
      assert ("&" + Join(pieces[1..]))[1..] == Join(pieces[1..]);
    }
  }

  lemma {:induction false} TotalNonEmpty(pieces: seq<string>)
    ensures Total(NonEmpty(pieces)) == Total(pieces)
  {
    if pieces != [] {
      TotalNonEmpty(pieces[1..]);
      if pieces[0] != "" {
        assert NonEmpty(pieces)[1..] == NonEmpty(pieces[1..]);
      } else {
        assert NonEmpty(pieces) == NonEmpty(pieces[1..]);
      }
    }
  }

  lemma {:induction false} CutOffTakes(piece: string)
    requires EndsEmpty(piece)
    ensures Equals(CutOff(piece)) + 1 == Equals(piece)
  {
    if Has(piece, "") {
      EqualsRun(piece, RunLength(piece));
    } else {
      CutOffTakes(piece[1..]);
    }
  }

  lemma {:induction false} CutOffPieces(piece: string)
    requires EndsEmpty(piece) && NoAmpersand(piece)
    ensures NoAmpersand(CutOff(piece))
  {
    if !Has(piece, "") {
      CutOffPieces(piece[1..]);
    }
  }

  lemma {:induction false} MeetsBehind(front: string, piece: string)
    requires MeetsUndefined(piece)
    ensures MeetsUndefined(front + piece)
  {
    if front == "" {
      assert front + piece == piece;
    } else {
      MeetsBehind(front[1..], piece);
      assert (front + piece)[1..] == front[1..] + piece;
    }
  }

  /** The first scan takes one equals sign from every piece it cuts and spares the undefined values elsewhere. */
  lemma {:induction false} FirstPassTakes(pieces: seq<string>)
    requires Pieces(pieces)
    ensures Pieces(FirstPass(pieces))
    ensures Total(FirstPass(pieces)) + Hits(pieces) <= Total(pieces) + Meetings(FirstPass(pieces))
  {
    var piece, after := pieces[0], FirstPass(pieces);
    assert NoAmpersand(piece);
    if EndsEmpty(piece) {
      CutOffTakes(piece);
      CutOffPieces(piece);
    }
    if |pieces| > 1 {
      var rest := FirstPass(pieces[1..]);
      FirstPassTakes(pieces[1..]);
      if EndsEmpty(piece) {
        EqualsAppend(CutOff(piece), rest[0]);
        if MeetsUndefined(rest[0]) {
          MeetsBehind(CutOff(piece), rest[0]);
        }
      } else {
        assert after[1..] == rest;
      }
    }
  }

  /** The second scan takes one from every piece in which an undefined value starts. */
  lemma {:induction false} SecondScanTakesAll(pieces: seq<string>)
    requires Pieces(pieces)
    ensures Left(Join(pieces)) + Meetings(pieces) <= Total(pieces)
  {
    var piece := pieces[0];
    assert NoAmpersand(piece);
    if |pieces| == 1 {
      SecondScanTakes(piece, "");
      assert piece + "" == piece;
      assert RemoveAll(UndefinedValue, "") == "";
    } else {
      var later := Join(pieces[1..]);
      SecondScanTakesAll(pieces[1..]);
      assert pieces == [piece] + pieces[1..];
      JoinCons(piece, pieces[1..]);
      SecondScanTakes(piece, "&" + later);
      ScanAmpersand(UndefinedValue, later);
      assert ("&" + RemoveAll(UndefinedValue, later))[1..] == RemoveAll(UndefinedValue, later);
    }
  }

  /** The filter takes an equals sign from no other piece than the scans do, and not from disturbed ones. */
  lemma {:induction false} FilterTakes(pieces: seq<string>)
    ensures Total(pieces) <= Total(OnlyKept(pieces)) + Hits(pieces)
    ensures (exists i :: 0 <= i < |pieces| && Disturbed(pieces[i])) ==>
              Total(pieces) < Total(OnlyKept(pieces)) + Hits(pieces)
  {
    if pieces != [] {
      var piece, rest := pieces[0], pieces[1..];
      FilterTakes(rest);
      if Kept(piece) {
        assert OnlyKept(pieces)[1..] == OnlyKept(rest);
      } else {
        DroppedWhole(piece);
        DroppedEquals(piece);
        assert OnlyKept(pieces) == OnlyKept(rest);
      }
      if exists i :: 0 <= i < |pieces| && Disturbed(pieces[i]) {
        var i :| 0 <= i < |pieces| && Disturbed(pieces[i]);
        assert i > 0 ==> rest[i - 1] == pieces[i];
      }
    }
  }

  // ---------------------------------------------------------------- splitting and joining

  ghost predicate Pieces(pieces: seq<string>) {
    pieces != [] && forall i :: 0 <= i < |pieces| ==> NoAmpersand(pieces[i])
  }

  lemma {:induction false} JoinSplit(s: string)
    ensures Join(Split(s)) == s
    ensures Pieces(Split(s))
  {
    if s != "" {
      var rest := Split(s[1..]);
      JoinSplit(s[1..]);
      if s[0] == '&' {
        JoinCons("", rest);
        assert "" + ("&" + s[1..]) == s;
      } else {
        var first := [s[0]] + rest[0];
        if |rest| > 1 {
          JoinCons(first, rest[1..]);
          JoinCons(rest[0], rest[1..]);
          assert [rest[0]] + rest[1..] == rest;
          ConcatAssoc([s[0]], rest[0], "&" + Join(rest[1..]));
        }
        assert [s[0]] + s[1..] == s;
      }
    }
  }

  lemma {:induction false} SplitPiece(piece: string, rest: string)
    requires NoAmpersand(piece)
    ensures Split(piece + ("&" + rest)) == [piece] + Split(rest)
    ensures Split(piece) == [piece]
  {
    var s := piece + ("&" + rest);
    if piece == "" {
      assert s == "&" + rest;
      assert s[1..] == rest;
    } else {
      SplitPiece(piece[1..], rest);
      assert s[1..] == piece[1..] + ("&" + rest);
      assert [piece[0]] + piece[1..] == piece;
    }
  }

  lemma {:induction false} SplitJoin(pieces: seq<string>)
    requires Pieces(pieces)
    ensures Split(Join(pieces)) == pieces
  {
    SplitPiece(pieces[0], Join(pieces[1..]));
    if |pieces| > 1 {
      SplitJoin(pieces[1..]);
      JoinCons(pieces[0], pieces[1..]);
      assert [pieces[0]] + pieces[1..] == pieces;
    }
  }

  lemma {:induction false} NonEmptyAppend(a: seq<string>, b: seq<string>)
    ensures NonEmpty(a + b) == NonEmpty(a) + NonEmpty(b)
  {
    if a == [] {
      assert a + b == b;
    } else {
      NonEmptyAppend(a[1..], b);
      assert (a + b)[1..] == a[1..] + b;
      ConcatAssoc(IfNonEmpty(a[0]), NonEmpty(a[1..]), NonEmpty(b));
    }
  }

  lemma {:induction false} JoinSnoc(pieces: seq<string>, last: string)
    requires pieces != []
    ensures Join(pieces + [last]) == Join(pieces) + ("&" + last)
  {
    if |pieces| == 1 {
      assert pieces + [last] == [pieces[0]] + [last];
      JoinCons(pieces[0], [last]);
    } else {
      JoinSnoc(pieces[1..], last);
      assert pieces + [last] == [pieces[0]] + (pieces[1..] + [last]);
      JoinCons(pieces[0], pieces[1..] + [last]);
      assert pieces == [pieces[0]] + pieces[1..];
      JoinCons(pieces[0], pieces[1..]);
      ConcatAssoc(pieces[0], "&" + Join(pieces[1..]), "&" + last);
      ConcatAssoc("&", Join(pieces[1..]), "&" + last);
    }
  }

  lemma DropLastOfEmptyEnd(front: seq<string>)
    requires front != []
    ensures DropLastAmpersand(Join(front + [""])) == Join(front)
  {
    JoinSnoc(front, "");
    var s := Join(front + [""]);
    assert s == Join(front) + "&";
  }

  lemma DropLastOfPiece(front: seq<string>, last: string)
    requires NoAmpersand(last) && (last != "" || front == [])
    ensures DropLastAmpersand(Join(front + [last])) == Join(front + [last])
  {
    var s := Join(front + [last]);
    if front != [] {
      JoinSnoc(front, last);
      assert s[|s| - 1] == last[|last| - 1];
    } else {
      assert front + [last] == [last];
    }
  }

  /** Dropping one ampersand at the end of a query loses no parameter. */
  lemma DropLastKeeps(pieces: seq<string>)
    requires Pieces(pieces)
    ensures NonEmpty(Split(DropLastAmpersand(Join(pieces)))) == NonEmpty(pieces)
  {
    var n := |pieces| - 1;
    var last, front := pieces[n], pieces[..n];
    assert pieces == front + [last];
    if n > 0 && last == "" {
      DropLastOfEmptyEnd(front);
      assert Pieces(front);
      SplitJoin(front);
      NonEmptyAppend(front, [last]);
      assert NonEmpty([last]) == [];
    } else {
      DropLastOfPiece(front, last);
      SplitJoin(pieces);
    }
  }

  // ---------------------------------------------------------------- theorems

  /** What is left of a query without disturbed parameters. */
  lemma CleanedIs(url: string)
    requires forall i :: 0 <= i < |Split(url)| ==> !Disturbed(Split(url)[i])
    ensures NonEmpty(Split(RemoveEmptyQueryParams(url))) == NonEmpty(OnlyKept(Split(url)))
  {
    var pieces := Split(url);
    JoinSplit(url);
    FirstScan(pieces);
    PassesKeep(pieces);
    FirstPassPlain(pieces);
    var first := FirstPass(pieces);
    SecondScan(first);
    forall i | 0 <= i < |first|
      ensures NoAmpersand(SecondPass(first)[i])
    {
      assert Plain(first[i]);
      if SecondPass(first)[i] != "" {
        var j :| 0 <= j < |first| && first[j] == SecondPass(first)[i];
        assert Plain(first[j]);
      }
    }
    DropLastKeeps(SecondPass(first));
  }

  /** The pieces that do not have an empty value; one with the value undefined is left empty. */
  function Remaining(pieces: seq<string>): seq<string> {
    if pieces == [] then [] else (if Has(pieces[0], "") then [] else [SecondOf(pieces[0])]) + Remaining(pieces[1..])
  }

  lemma RemainingCons(pieces: seq<string>)
    requires pieces != []
    ensures Remaining(pieces) ==
            if Has(pieces[0], "") then Remaining(pieces[1..]) else [SecondOf(pieces[0])] + Remaining(pieces[1..])
  {
  }

  function EndOf(pieces: seq<string>): seq<string>
    requires pieces != []
  {
    if Has(pieces[|pieces| - 1], "") then [""] else []
  }

  lemma PassesOfOne(piece: string)
    requires NoAmpersand(piece) && !Disturbed(piece)
    ensures SecondPass(FirstPass([piece])) == Remaining([piece]) + EndOf([piece])
  {
    RemainingCons([piece]);
    if !Kept(piece) {
      DroppedWhole(piece);
    }
    var first := if Has(piece, "") then "" else piece;
    assert FirstPass([piece]) == [first] == [first] + [];
    SecondPassCons(first, []);
    assert !Has("", UNDEFINED);
  }

  lemma PassesOfMore(piece: string, rest: seq<string>)
    requires Pieces([piece] + rest) && rest != [] && !Disturbed(piece)
    ensures SecondPass(FirstPass([piece] + rest)) ==
            if Has(piece, "") then SecondPass(FirstPass(rest)) else [SecondOf(piece)] + SecondPass(FirstPass(rest))
  {
    assert ([piece] + rest)[1..] == rest;
    FirstPassCons([piece] + rest);
    SecondPassCons(piece, FirstPass(rest));
  }

  lemma {:induction false} PassesAre(pieces: seq<string>)
    requires Pieces(pieces) && forall i :: 0 <= i < |pieces| ==> !Disturbed(pieces[i])
    ensures SecondPass(FirstPass(pieces)) == Remaining(pieces) + EndOf(pieces)
  {
    var piece, rest := pieces[0], pieces[1..];
    assert pieces == [piece] + rest && !Disturbed(piece);
    if rest == [] {
      assert NoAmpersand(piece);
      PassesOfOne(piece);
    } else {
      PassesAre(rest);
      PassesOfMore(piece, rest);
      RemainingCons(pieces);
      ConcatAssoc([SecondOf(piece)], Remaining(rest), EndOf(rest));
    }
  }

  lemma {:induction false} RemainingPieces(pieces: seq<string>)
    requires forall i :: 0 <= i < |pieces| ==> NoAmpersand(pieces[i])
    ensures forall i :: 0 <= i < |Remaining(pieces)| ==> NoAmpersand(Remaining(pieces)[i])
    ensures pieces != [] && !Has(pieces[|pieces| - 1], "") ==> Remaining(pieces) != []
  {
    if pieces != [] {
      RemainingCons(pieces);
      RemainingPieces(pieces[1..]);
      assert NoAmpersand(pieces[0]);
    }
  }

  /** Both scans of a query without disturbed parameters. */
  lemma BothScans(url: string)
    requires forall i :: 0 <= i < |Split(url)| ==> !Disturbed(Split(url)[i])
    ensures RemoveAll(UndefinedValue, RemoveAll(EndOfParameter, url)) ==
            Join(Remaining(Split(url)) + EndOf(Split(url)))
  {
    JoinSplit(url);
    FirstScan(Split(url));
    FirstPassPlain(Split(url));
    SecondScan(FirstPass(Split(url)));
    PassesAre(Split(url));
  }

  /** Dropping one ampersand at the end drops one empty piece there, if it is not the only one. */
  lemma DropLastPiece(pieces: seq<string>)
    requires Pieces(pieces)
    ensures DropLastAmpersand(Join(pieces)) ==
            Join(if pieces[|pieces| - 1] == "" then pieces[..|pieces| - 1] else pieces)
  {
    var n := |pieces| - 1;
    assert pieces == pieces[..n] + [pieces[n]];
    if n > 0 && pieces[n] == "" {
      DropLastOfEmptyEnd(pieces[..n]);
    } else {
      DropLastOfPiece(pieces[..n], pieces[n]);
    }
  }

  /**
    The text that is left of a query without disturbed parameters: an undefined value leaves an empty piece, an empty
    value nothing, and one ampersand at the end goes.
  */
  lemma CleanedText(url: string)
    requires forall i :: 0 <= i < |Split(url)| ==> !Disturbed(Split(url)[i])
    ensures var pieces, left := Split(url), Remaining(Split(url));
            RemoveEmptyQueryParams(url) ==
            Join(if left == [] || Has(pieces[|pieces| - 1], "") || left[|left| - 1] != "" then left
                 else left[..|left| - 1])
  {
    var pieces, left := Split(url), Remaining(Split(url));
    JoinSplit(url);
    BothScans(url);
    RemainingPieces(pieces);
    DropLastPiece(left + EndOf(pieces));
    if Has(pieces[|pieces| - 1], "") {
      assert (left + [""])[..|left|] == left;
    } else {
      assert left + [] == left;
    }
  }

  /** If besides no parameter is missing or undefined, it is the text of the parameters that should stay. */
  lemma CleanedTextIsKept(url: string)
    requires forall i :: 0 <= i < |Split(url)| ==>
               !Disturbed(Split(url)[i]) && Split(url)[i] != "" && !Has(Split(url)[i], "undefined")
    ensures RemoveEmptyQueryParams(url) == Join(OnlyKept(Split(url)))
  {
    var pieces := Split(url);
    CleanedText(url);
    RemainingKept(pieces);
    JoinSplit(url);
    RemainingPieces(pieces);
  }

  lemma {:induction false} RemainingKept(pieces: seq<string>)
    requires forall i :: 0 <= i < |pieces| ==> pieces[i] != "" && !Has(pieces[i], UNDEFINED)
    ensures Remaining(pieces) == OnlyKept(pieces)
    ensures forall i :: 0 <= i < |Remaining(pieces)| ==> Remaining(pieces)[i] != ""
  {
    if pieces != [] {
      RemainingCons(pieces);
      OnlyKeptCons(pieces);
      RemainingKept(pieces[1..]);
    }
  }

  /** Of two parameters: an empty one behind goes without a trace, an undefined one in front leaves its ampersand. */
  lemma TwoParameters(first: string, last: string)
    requires NoAmpersand(first) && NoAmpersand(last) && !Disturbed(first) && !Disturbed(last)
    ensures Kept(first) && first != "" && Has(last, "") ==> RemoveEmptyQueryParams(first + ("&" + last)) == first
    ensures Has(first, "undefined") && Kept(last) && last != "" ==>
              RemoveEmptyQueryParams(first + ("&" + last)) == "&" + last
  {
    SplitPiece(first, last);
    SplitPiece(last, "");
    var pieces := Split(first + ("&" + last));
    assert pieces == [first] + [last];
    CleanedText(first + ("&" + last));
    RemainingCons(pieces);
    RemainingCons([last]);
    JoinCons("", [last]);
    assert "" + ("&" + last) == "&" + last;
  }

  /** The parameters that should stay, in their order: those whose value is not empty and not undefined. */
  lemma {:induction false} KeptFilters(pieces: seq<string>, p: string -> bool)
    requires forall x :: p(x) <==> !Has(x, "") && !Has(x, "undefined")
    ensures OnlyKept(pieces) == Filter(pieces, p)
  {
    if pieces != [] {
      OnlyKeptCons(pieces);
      KeptFilters(pieces[1..], p);
    }
  }

  lemma {:induction false} RunLengthIs(s: string, n: nat)
    requires n <= |s| && (forall i :: 0 <= i < n ==> s[i] != '=' && s[i] != '&')
    requires n < |s| ==> s[n] == '=' || s[n] == '&'
    ensures RunLength(s) == n
  {
    if n > 0 {
      RunLengthIs(s[1..], n - 1);
    }
  }

  /** What it is to have a value: a name that is not empty, an equals sign, and the value. */
  lemma HasIff(piece: string, value: string)
    ensures Has(piece, value) <==>
            exists name :: name != "" && '=' !in name && '&' !in name && piece == name + ("=" + value)
  {
    if Has(piece, value) {
      var n := RunLength(piece);
      var name := piece[..n];
      assert piece == name + ("=" + value);
    }
    if name :| name != "" && '=' !in name && '&' !in name && piece == name + ("=" + value) {
      RunLengthIs(piece, |name|);
      assert piece[|name| + 1..] == value;
    }
  }

  /** The text starts with a name, an equals sign and what the pattern asks for behind it. */
  predicate StartsWith(tail: Tail, s: string, name: string, end: string) {
    && name != "" && '=' !in name && '&' !in name && name + ("=" + end) <= s
    && (end == (if tail == EndOfParameter then "&" else "undefined") || (end == "" && |s| == |name| + 1))
  }

  lemma MatchStarts(tail: Tail, s: string)
    requires MatchLength(tail, s).Some?
    ensures var m, n := RunLength(s), MatchLength(tail, s).value;
            m < n <= |s| && StartsWith(tail, s, s[..m], s[m + 1..n]) && n == m + 1 + |s[m + 1..n]|
  {
    var m, n := RunLength(s), MatchLength(tail, s).value;
    assert s[..m] + ("=" + s[m + 1..n]) == s[..n];
    assert tail == UndefinedValue && n > m + 1 ==> s[m + 1..n] == s[m + 1..][..|UNDEFINED|] == UNDEFINED;
  }

  lemma StartMatches(tail: Tail, s: string, name: string, end: string)
    requires StartsWith(tail, s, name, end)
    ensures MatchLength(tail, s) == Some(|name| + 1 + |end|)
  {
    var m := |name|;
    assert s[m + 1..] == end + s[m + 1 + |end|..];
    assert s[m] == (name + ("=" + end))[m] == '=';
    assert forall i :: 0 <= i < m ==> s[i] == (name + ("=" + end))[i] == name[i];
    RunLengthIs(s, m);
  }

  /** What each of the two patterns matches at the start of a text. */
  lemma MatchIff(tail: Tail, s: string, n: nat)
    ensures MatchLength(tail, s) == Some(n) <==>
            exists name, end :: StartsWith(tail, s, name, end) && n == |name| + 1 + |end|
  {
    if MatchLength(tail, s) == Some(n) {
      MatchStarts(tail, s);
    }
    forall name, end | StartsWith(tail, s, name, end) && n == |name| + 1 + |end|
      ensures MatchLength(tail, s) == Some(n)
    {
      StartMatches(tail, s, name, end);
    }
  }

  /** Both scans together take an equals sign from every parameter they hit. */
  lemma CleanedTakes(url: string)
    ensures Total(NonEmpty(Split(RemoveEmptyQueryParams(url)))) + Hits(Split(url)) <= Total(Split(url))
  {
    var pieces := Split(url);
    JoinSplit(url);
    FirstScan(pieces);
    FirstPassTakes(pieces);
    SecondScanTakesAll(FirstPass(pieces));
    var scanned := RemoveAll(UndefinedValue, Join(FirstPass(pieces)));
    JoinSplit(scanned);
    DropLastKeeps(Split(scanned));
    TotalNonEmpty(Split(scanned));
    TotalJoin(Split(scanned));
  }

  /**
    For every URL: the three replacements filter the parameters - those with an empty or undefined value go, the
    others stay in order - exactly when no parameter is disturbed.
  */
  lemma CleaningIsFilteringIff(url: string)
    ensures NonEmpty(Split(RemoveEmptyQueryParams(url))) == NonEmpty(OnlyKept(Split(url))) <==>
            forall i :: 0 <= i < |Split(url)| ==> !Disturbed(Split(url)[i])
  {
    if forall i :: 0 <= i < |Split(url)| ==> !Disturbed(Split(url)[i]) {
      CleanedIs(url);
    } else {
      CleanedTakes(url);
      FilterTakes(Split(url));
      TotalNonEmpty(OnlyKept(Split(url)));
    }
  }

  predicate OneEquals(piece: string) {
    forall i, j :: 0 <= i < j < |piece| ==> piece[i] != '=' || piece[j] != '='
  }

  /** Two disturbed parameters. */
  lemma DisturbedExamples()
    ensures Disturbed("a=undefinedly") && Disturbed("a=b=")
  {
    var first, second := "a=undefinedly", "a=b=";
    assert RunLength(first) == 1 && first[2..] == UNDEFINED + "ly";
    assert StartsUndefined(first);
    assert RunLength(second) == 1 && second[2..] == "b=" && second[1..][1..] == "b=";
    assert RunLength("b=") == 1 && "b="[2..] == "";
    assert Has("b=", "") && EndsEmpty(second[1..]);
  }

  /** Cleaning a query that starts with a disturbed parameter, like one of these, is not filtering. */
  lemma DisturbedInFront(piece: string, rest: string)
    requires NoAmpersand(piece) && Disturbed(piece)
    ensures var url := piece + ("&" + rest);
            NonEmpty(Split(RemoveEmptyQueryParams(url))) != NonEmpty(OnlyKept(Split(url)))
  {
    SplitPiece(piece, rest);
    var url := piece + ("&" + rest);
    CleaningIsFilteringIff(url);
    assert Split(url)[0] == piece;
  }

  /** Where names and values hold no '=', only a value that merely starts with the word undefined is disturbed. */
  lemma {:induction false} DisturbedIff(piece: string)
    requires NoAmpersand(piece) && OneEquals(piece)
    ensures EndsEmpty(piece) <==> Has(piece, "")
    ensures MeetsUndefined(piece) <==> StartsUndefined(piece)
    ensures Disturbed(piece) <==> StartsUndefined(piece) && !Has(piece, UNDEFINED)
  {
    if piece != "" {
      var rest := piece[1..];
      DisturbedIff(rest);
      var m := RunLength(rest);
      if 0 < m < |rest| && rest[m] == '=' {
        assert piece[m + 1] == '=' && piece[0] != '=';
        assert rest[m + 1..] == piece[m + 2..];
      }
    }
  }

  /**
    The path of the URL belongs to the name of the first parameter, so it survives exactly when that parameter does.
  */
  lemma PathSurvivesIff(url: string)
    requires forall i :: 0 <= i < |Split(url)| ==> !Disturbed(Split(url)[i])
    requires Split(url)[0] != ""
    ensures var cleaned := NonEmpty(Split(RemoveEmptyQueryParams(url)));
            (cleaned != [] && cleaned[0] == Split(url)[0]) <==> Kept(Split(url)[0])
  {
    CleaningIsFilteringIff(url);
    var pieces := Split(url);
    var kept := NonEmpty(OnlyKept(pieces));
    if !Kept(pieces[0]) && kept != [] {
      KeptMembers(pieces, kept[0]);
    }
  }

  lemma {:induction false} KeptMembers(pieces: seq<string>, piece: string)
    requires piece in NonEmpty(OnlyKept(pieces))
    ensures Kept(piece)
  {
    if pieces != [] {
      var head := if Kept(pieces[0]) then [pieces[0]] else [];
      assert OnlyKept(pieces) == head + OnlyKept(pieces[1..]);
      NonEmptyAppend(head, OnlyKept(pieces[1..]));
      if piece in NonEmpty(OnlyKept(pieces[1..])) {
        KeptMembers(pieces[1..], piece);
      }
    }
  }

  /** An empty first parameter takes the whole path with it. */
  lemma EmptyFirstLosesPath(first: string, rest: string)
    requires NoAmpersand(first) && Has(first, "")
    ensures RemoveEmptyQueryParams(first + ("&" + rest)) == RemoveEmptyQueryParams(rest)
  {
    FirstScanDrops(first, "&" + rest);
    assert ("&" + rest)[1..] == rest;
  }
}
