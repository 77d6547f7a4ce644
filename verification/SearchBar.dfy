/** The search bar text and the URL query it stands for (frontend/src/helper.js). */
module SearchBar {
  import opened Prelude

  function Replace(s: string, from: char, to: char): (r: string)
    ensures |r| == |s|
    ensures forall i :: 0 <= i < |s| ==> r[i] == if s[i] == from then to else s[i]
  {
    if s == "" then "" else [if s[0] == from then to else s[0]] + Replace(s[1..], from, to)
  }

  /** The number of ampersands s starts with. */
  function Ampersands(s: string): (n: nat)
    ensures n <= |s|
    ensures forall i :: 0 <= i < n ==> s[i] == '&'
    ensures n < |s| ==> s[n] != '&'
  {
    if s == "" || s[0] != '&' then 0 else 1 + Ampersands(s[1..])
  }

  /** Every run of two or more ampersands becomes one. */
  function Collapse(s: string): string
    decreases |s|
  {
    if s == "" then ""
    else if Ampersands(s) > 0 then "&" + Collapse(s[Ampersands(s)..])
    else [s[0]] + Collapse(s[1..])
  }

  function ConvertToURLQuery(s: string): string {
    Collapse(Replace(Replace(s, ':', '='), ' ', '&'))
  }

  function ConvertToSearchBarString(s: string): string {
    Replace(Replace(s, '=', ':'), '&', ' ')
  }

  predicate Without(s: string, c: char) {
    forall i :: 0 <= i < |s| ==> s[i] != c
  }

  predicate NoDouble(s: string, c: char) {
    forall i :: 0 <= i < |s| - 1 ==> s[i] != c || s[i + 1] != c
  }

  lemma {:induction false} CollapseResult(s: string)
    ensures NoDouble(Collapse(s), '&')
    ensures s != "" ==> Collapse(s) != "" && (Collapse(s)[0] == '&' <==> s[0] == '&')
    ensures forall c :: Without(s, c) ==> Without(Collapse(s), c)
    ensures |Collapse(s)| <= |s| && (|Collapse(s)| == |s| ==> NoDouble(s, '&'))
    decreases |s|
  {
    if s != "" {
      var n := Ampersands(s);
      var rest := if n > 0 then s[n..] else s[1..];
      CollapseResult(rest);
      forall c | Without(s, c)
        ensures Without(Collapse(s), c)
      {
        assert Without(rest, c);
      }
      if |Collapse(s)| == |s| {
        assert n <= 1 && rest == s[1..];
        assert forall i :: 0 < i < |s| - 1 ==> s[i] == rest[i - 1] && s[i + 1] == rest[i];
      }
    }
  }

  /** Whether the character is kept: it is no ampersand, or the first one of its run. */
  predicate FirstOfRun(s: string, k: nat)
    requires k < |s|
  {
    s[k] != '&' || k == 0 || s[k - 1] != '&'
  }

  lemma PickedBehind(s: string, n: nat, at: seq<nat>, part: string) returns (more: seq<nat>)
    requires 0 < n <= |s| && PickedAt(s[n..], at, part)
    ensures PickedAt(s, more, [s[0]] + part)
    ensures forall k: nat :: k in more <==> k == 0 || (k >= n && k - n in at)
  {
    var moved := seq(|at|, i requires 0 <= i < |at| => at[i] + n);
    more := [0] + moved;
    forall k: nat
      ensures k in moved <==> k >= n && k - n in at
    {
      if k >= n && k - n in at {
        var i :| 0 <= i < |at| && at[i] == k - n;
        assert moved[i] == k;
      }
    }
  }

  /** Collapsing keeps everything but the ampersands that follow an ampersand. */
  lemma {:induction false} CollapsePicks(s: string) returns (at: seq<nat>)
    ensures PickedAt(s, at, Collapse(s))
    ensures forall k :: 0 <= k < |s| ==> (k in at <==> FirstOfRun(s, k))
    decreases |s|
  {
    at := [];
    if s != "" {
      var n := if Ampersands(s) > 0 then Ampersands(s) else 1;
      var rest := CollapsePicks(s[n..]);
      at := PickedBehind(s, n, rest, Collapse(s[n..]));
      assert Collapse(s) == [s[0]] + Collapse(s[n..]);
      forall k | n <= k < |s|
        ensures FirstOfRun(s, k) <==> FirstOfRun(s[n..], k - n)
      {
        assert s[n..][k - n] == s[k];
        assert k > n ==> s[n..][k - n - 1] == s[k - 1];
      }
    }
  }

  lemma {:induction false} CollapseNothing(s: string)
    requires NoDouble(s, '&')
    ensures Collapse(s) == s
  {
    if s != "" {
      var rest := s[1..];
      assert |s| > 1 ==> s[0] != '&' || s[0 + 1] != '&';
      forall i | 0 <= i < |rest| - 1
        ensures rest[i] != '&' || rest[i + 1] != '&'
      {
        assert s[i + 1] != '&' || s[i + 1 + 1] != '&';
      }
      CollapseNothing(rest);
      assert s == [s[0]] + rest;
    }
  }

  /** A query made from a search bar text survives the way to the search bar and back. */
  lemma QueryRoundTrip(s: string)
    ensures ConvertToURLQuery(ConvertToSearchBarString(ConvertToURLQuery(s))) == ConvertToURLQuery(s)
  {
    var raw := Replace(Replace(s, ':', '='), ' ', '&');
    var query := ConvertToURLQuery(s);
    CollapseResult(raw);
    assert Without(raw, ':') && Without(raw, ' ');
    assert Without(query, ':') && Without(query, ' ');
    var back := Replace(Replace(ConvertToSearchBarString(query), ':', '='), ' ', '&');
    assert back == query;
    CollapseNothing(query);
  }

  /** A search bar text comes back unchanged exactly when it holds no '=', no '&' and no two spaces in a row. */
  lemma SearchBarRoundTripIff(s: string)
    ensures ConvertToSearchBarString(ConvertToURLQuery(s)) == s <==>
            Without(s, '=') && Without(s, '&') && NoDouble(s, ' ')
  {
    var raw := Replace(Replace(s, ':', '='), ' ', '&');
    var back := ConvertToSearchBarString(ConvertToURLQuery(s));
    CollapseResult(raw);
    assert Without(back, '=') && Without(back, '&');
    if back == s {
      assert |Collapse(raw)| == |raw|;
      forall i | 0 <= i < |s| - 1
        ensures s[i] != ' ' || s[i + 1] != ' '
      {
        assert raw[i] != '&' || raw[i + 1] != '&';
      }
    }
    if Without(s, '=') && Without(s, '&') && NoDouble(s, ' ') {
      forall i | 0 <= i < |raw| - 1
        ensures raw[i] != '&' || raw[i + 1] != '&'
      {
        assert s[i] != ' ' || s[i + 1] != ' ';
      }
      CollapseNothing(raw);
    }
  }
}
