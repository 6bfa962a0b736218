/**
 The JSON pointers of queue patch requests: the validator, the decoder, and
 their relation to escaping (section 4 of RFC 6901).
 */
module JsonPointer {

  // ---- Strings ----

  /** Whitespace for `\s` and `strip()`, up to U+00FF. */
  predicate Space(c: char) {
    '\t' <= c <= '\r' || '\U{1c}' <= c <= ' ' || c == '\U{85}' || c == '\U{a0}'
  }

  /** The codes below 256 that the regular expressions and `strip` of Python take for whitespace. */
  lemma SpaceIs(c: char)
    requires c < '\U{100}'
    ensures Space(c) <==> c as int in {9, 10, 11, 12, 13, 28, 29, 30, 31, 32, 133, 160}
  {
  }

  function LStrip(s: string): string {
    if s == "" || !Space(s[0]) then s else LStrip(s[1..])
  }

  function RStrip(s: string): string {
    if s == "" || !Space(s[|s| - 1]) then s else RStrip(s[..|s| - 1])
  }

  function Strip(s: string): string {
    RStrip(LStrip(s))
  }

  predicate Trimmed(s: string) {
    s != "" ==> !Space(s[0]) && !Space(s[|s| - 1])
  }

  lemma {:induction false} RStripTrims(s: string)
    ensures RStrip(s) <= s && (RStrip(s) != "" ==> !Space(RStrip(s)[|RStrip(s)| - 1]))
    decreases |s|
  {
    if s != "" && Space(s[|s| - 1]) { RStripTrims(s[..|s| - 1]); }
  }

  lemma {:induction false} LStripTrims(s: string)
    ensures LStrip(s) != "" ==> !Space(LStrip(s)[0])
    decreases |s|
  {
    if s != "" && Space(s[0]) { LStripTrims(s[1..]); }
  }

  lemma StripTrims(s: string)
    ensures Trimmed(Strip(s)) && (Trimmed(s) ==> Strip(s) == s)
  {
    LStripTrims(s);
    RStripTrims(LStrip(s));
  }

  /** `lstrip('/')`. */
  function LStripSlashes(s: string): string {
    if s == "" || s[0] != '/' then s else LStripSlashes(s[1..])
  }

  /** `split('/')`. */
  function Split(s: string): (parts: seq<string>)
    ensures parts != []
  {
    if s == "" then [""]
    else
      var rest := Split(s[1..]);
      if s[0] == '/' then [""] + rest else [[s[0]] + rest[0]] + rest[1..]
  }

  /** `s.replace("~" + digit, [with])`: left to right, without overlaps. */
  function Replace(s: string, digit: char, with_: char): string {
    if s == "" then ""
    else if |s| >= 2 && s[0] == '~' && s[1] == digit then [with_] + Replace(s[2..], digit, with_)
    else [s[0]] + Replace(s[1..], digit, with_)
  }

  /** What the code does to each part: `~1` everywhere, then `~0` everywhere. */
  function ReplaceBoth(s: string): string {
    Replace(Replace(s, '1', '/'), '0', '~')
  }

  /** Evaluating escapes in one pass from left to right. */
  function Unescape(s: string): string {
    if s == "" then ""
    else if |s| >= 2 && s[0] == '~' && s[1] == '1' then "/" + Unescape(s[2..])
    else if |s| >= 2 && s[0] == '~' && s[1] == '0' then "~" + Unescape(s[2..])
    else [s[0]] + Unescape(s[1..])
  }

  /** Replacing in the order the code uses never sees an escape that was not there: the two
      global replacements are the single pass, on every string. */
  lemma {:induction false} ReplacingInOrderIsUnescaping(s: string)
    ensures ReplaceBoth(s) == Unescape(s)
    decreases |s|
  {
    if s == "" {
    } else if |s| >= 2 && s[0] == '~' && s[1] == '1' {
      var r := Replace(s[2..], '1', '/');
      assert ("/" + r)[1..] == r;
      ReplacingInOrderIsUnescaping(s[2..]);
    } else if |s| >= 2 && s[0] == '~' && s[1] == '0' {
      var r := Replace(s[2..], '1', '/');
      assert s[1..][1..] == s[2..];
      assert Replace(s[1..], '1', '/') == "0" + r;
      assert Replace(s, '1', '/') == "~" + ("0" + r);
      assert ("~" + ("0" + r))[2..] == r;
      ReplacingInOrderIsUnescaping(s[2..]);
    } else {
      var r := Replace(s[1..], '1', '/');
      assert ([s[0]] + r)[1..] == r;
      assert s[0] == '~' && r != "" ==> r[0] != '0';
      ReplacingInOrderIsUnescaping(s[1..]);
    }
  }

  /** The replacements in the other order. */
  function ReplaceSwapped(s: string): string {
    Replace(Replace(s, '0', '~'), '1', '/')
  }

  /** How often `~01` occurs, which stands for `~1` and not for `/`. */
  function Traps(s: string): nat {
    if |s| < 3 then 0
    else (if s[0] == '~' && s[1] == '0' && s[2] == '1' then 1 else 0) + Traps(s[1..])
  }

  lemma SwappedUnfolds(s: string)
    requires s != ""
    ensures |s| >= 2 && s[0] == '~' && s[1] == '1' ==> ReplaceSwapped(s) == "/" + ReplaceSwapped(s[2..])
    ensures |s| >= 3 && s[0] == '~' && s[1] == '0' && s[2] == '1' ==> ReplaceSwapped(s) == "/" + ReplaceSwapped(s[3..])
    ensures |s| >= 2 && s[0] == '~' && s[1] == '0' && !(|s| >= 3 && s[2] == '1') ==>
              ReplaceSwapped(s) == "~" + ReplaceSwapped(s[2..])
    ensures !(|s| >= 2 && s[0] == '~' && (s[1] == '0' || s[1] == '1')) ==>
              ReplaceSwapped(s) == [s[0]] + ReplaceSwapped(s[1..])
  {
    if |s| >= 2 && s[0] == '~' && s[1] == '1' {
      var r := Replace(s[2..], '0', '~');
      assert s[1..][1..] == s[2..];
      assert Replace(s[1..], '0', '~') == "1" + r;
      assert Replace(s, '0', '~') == "~" + ("1" + r) && ("~" + ("1" + r))[2..] == r;
    } else if |s| >= 2 && s[0] == '~' && s[1] == '0' {
      var r := Replace(s[2..], '0', '~');
      assert Replace(s, '0', '~') == "~" + r && ("~" + r)[1..] == r;
      if |s| >= 3 && s[2] == '1' {
        var r' := Replace(s[3..], '0', '~');
        assert s[2..][1..] == s[3..] && r == "1" + r' && ("~" + r)[2..] == r';
      } else {
        assert r != "" ==> r[0] != '1';
      }
    } else {
      var r := Replace(s[1..], '0', '~');
      assert Replace(s, '0', '~') == [s[0]] + r && ([s[0]] + r)[1..] == r;
      assert s[0] == '~' && r != "" ==> r[0] != '1';
    }
  }

  /** Every `~01` costs the other order one character, and nothing else makes a difference. */
  lemma {:induction false} SwappedFallsShort(s: string)
    ensures |ReplaceSwapped(s)| == |Unescape(s)| - Traps(s)
    ensures Traps(s) == 0 ==> ReplaceSwapped(s) == Unescape(s)
    decreases |s|
  {
    if s != "" {
      SwappedUnfolds(s);
      if |s| >= 2 && s[0] == '~' && s[1] == '1' {
        SwappedFallsShort(s[2..]);
        assert s[1..][1..] == s[2..];
      } else if |s| >= 3 && s[0] == '~' && s[1] == '0' && s[2] == '1' {
        SwappedFallsShort(s[3..]);
        assert s[1..][1..] == s[2..] && s[2..][1..] == s[3..];
        assert Unescape(s) == "~" + ("1" + Unescape(s[3..]));
        assert Traps(s) == 1 + Traps(s[1..]) && Traps(s[1..]) == Traps(s[2..]) == Traps(s[3..]);
      } else if |s| >= 2 && s[0] == '~' && s[1] == '0' {
        SwappedFallsShort(s[2..]);
        assert s[1..][1..] == s[2..];
      } else {
        SwappedFallsShort(s[1..]);
      }
    }
  }

  /** The order of the replacements matters exactly for strings in which `~01` occurs. */
  lemma OtherOrderAgreesIff(s: string)
    ensures ReplaceSwapped(s) == ReplaceBoth(s) <==> Traps(s) == 0
  {
    SwappedFallsShort(s);
    ReplacingInOrderIsUnescaping(s);
  }

  // ---- The validator ----

  datatype PointerError = NoLeadingSlash | AdjacentSlash | TrailingSlash | NoToken | BadEscape

  datatype Decoded = Ok(tokens: seq<string>) | ValidationFailed(error: PointerError)

  /** `re.search('/\s*?/', s)`. */
  predicate HasAdjacentSlashes(s: string) {
    exists i: nat, j: nat | i < j < |s| :: Adjacent(s, i, j)
  }

  /** `re.search('~[^01]', s) or s.endswith('~')`. */
  predicate HasBadEscape(s: string) {
    exists i | 0 <= i < |s| :: s[i] == '~' && !(i + 1 < |s| && (s[i + 1] == '0' || s[i + 1] == '1'))
  }

  /** `_validate_json_pointer`: the first complaint, if any. */
  function Complaint(pointer: string): seq<PointerError>
    ensures |Complaint(pointer)| <= 1
  {
    if !("/" <= pointer) then [NoLeadingSlash]
    else if HasAdjacentSlashes(pointer[1..]) then [AdjacentSlash]
    else if |pointer| > 1 && pointer[|pointer| - 1] == '/' then [TrailingSlash]
    else if Strip(pointer[1..]) == "/" then [NoToken]
    else if HasBadEscape(pointer) then [BadEscape]
    else []
  }

  function DecodeParts(parts: seq<string>): seq<string> {
    seq(|parts|, i requires 0 <= i < |parts| => Strip(ReplaceBoth(parts[i])))
  }

  /** `_decode_json_pointer`: an accepted pointer gives its parts, unescaped and trimmed, and
      the pointer of any good tokens gives these tokens. */
  method Decode(pointer: string) returns (r: Decoded)
    ensures Complaint(pointer) != [] ==> r == ValidationFailed(Complaint(pointer)[0])
    ensures r.Ok? <==> Accepted(pointer)
    ensures r.Ok? ==>
              var parts := Split(LStripSlashes(pointer));
              |r.tokens| == |parts| && forall i | 0 <= i < |parts| :: r.tokens[i] == Strip(Unescape(parts[i]))
    ensures forall tokens | Good(tokens) && pointer == Encode(tokens) :: r == Ok(tokens)
  {
    var complaint := Complaint(pointer);
    AcceptedIff(pointer);
    if complaint != [] {
      forall tokens | Good(tokens) ensures pointer != Encode(tokens) { GoodTokensAccepted(tokens); }
      return ValidationFailed(complaint[0]);
    }
    var parts := Split(LStripSlashes(pointer));
    var ret := [];
    for i := 0 to |parts|
      invariant ret == DecodeParts(parts)[..i]
    {
      ret := ret + [Strip(ReplaceBoth(parts[i]))];
    }
    forall i | 0 <= i < |parts| ensures ret[i] == Strip(Unescape(parts[i])) {
      ReplacingInOrderIsUnescaping(parts[i]);
    }
    forall tokens | Good(tokens) && pointer == Encode(tokens) ensures ret == tokens {
      GoodTokensReturn(tokens);
    }
    r := Ok(ret);
  }

  // ---- What the validator accepts ----

  predicate Blank(s: string) {
    forall i | 0 <= i < |s| :: Space(s[i])
  }

  /** Some part other than the first and the last is blank. */
  ghost predicate BlankInside(parts: seq<string>) {
    exists i | 0 < i < |parts| - 1 :: Blank(parts[i])
  }

  /** In terms of the parts after the leading slash: escapes are complete, no inner part is
      blank, a last part is not empty, and two parts are not both blank. The first part may
      be blank or empty. */
  ghost predicate Accepted(pointer: string) {
    && pointer != "" && pointer[0] == '/' && !HasBadEscape(pointer)
    && var parts := Split(pointer[1..]);
    && !BlankInside(parts)
    && (|parts| > 1 ==> parts[|parts| - 1] != "")
    && !(|parts| == 2 && Blank(parts[0]) && Blank(parts[1]))
  }

  /** The string begins with whitespace up to a slash. */
  ghost predicate BlankStart(s: string) {
    exists j | 0 <= j < |s| :: SlashAfterBlank(s, j)
  }

  predicate SlashAfterBlank(s: string, j: nat)
    requires j < |s|
  {
    s[j] == '/' && forall k | 0 <= k < j :: Space(s[k])
  }

  lemma BlankCons(c: char, s: string)
    ensures Blank([c] + s) <==> Space(c) && Blank(s)
  {
    var t := [c] + s;
    assert t[0] == c;
    forall i | 0 <= i < |s| ensures Space(t[i + 1]) <==> Space(s[i]) {
      assert t[i + 1] == s[i];
    }
    if Blank(t) {
      forall i | 0 <= i < |s| ensures Space(s[i]) { assert Space(t[i + 1]); }
    }
  }

  lemma {:induction false} BlankStartIff(s: string)
    ensures BlankStart(s) <==> |Split(s)| > 1 && Blank(Split(s)[0])
    decreases |s|
  {
    if s == "" {
    } else if s[0] == '/' {
      assert SlashAfterBlank(s, 0);
    } else {
      var rest := s[1..];
      BlankStartIff(rest);
      var first := Split(rest)[0];
      assert Split(s)[0] == [s[0]] + first;
      BlankCons(s[0], first);
      if BlankStart(s) {
        var j :| 0 <= j < |s| && SlashAfterBlank(s, j);
        assert SlashAfterBlank(rest, j - 1);
      }
      if Space(s[0]) && BlankStart(rest) {
        var j :| 0 <= j < |rest| && SlashAfterBlank(rest, j);
        assert SlashAfterBlank(s, j + 1);
      }
    }
  }

  predicate Adjacent(s: string, i: nat, j: nat)
    requires i < j < |s|
  {
    s[i] == '/' && s[j] == '/' && forall k | i < k < j :: Space(s[k])
  }

  lemma AdjacentUnfolds(s: string)
    requires s != ""
    ensures HasAdjacentSlashes(s) <==> HasAdjacentSlashes(s[1..]) || (s[0] == '/' && BlankStart(s[1..]))
  {
    var rest := s[1..];
    if HasAdjacentSlashes(s) {
      var i: nat, j: nat :| i < j < |s| && Adjacent(s, i, j);
      if i == 0 {
        assert SlashAfterBlank(rest, j - 1);
      } else {
        assert Adjacent(rest, i - 1, j - 1);
      }
    }
    if HasAdjacentSlashes(rest) {
      var i: nat, j: nat :| i < j < |rest| && Adjacent(rest, i, j);
      assert Adjacent(s, i + 1, j + 1);
    }
    if s[0] == '/' && BlankStart(rest) {
      var j :| 0 <= j < |rest| && SlashAfterBlank(rest, j);
      assert Adjacent(s, 0, j + 1);
    }
  }

  lemma {:induction false} AdjacentIff(s: string)
    ensures HasAdjacentSlashes(s) <==> BlankInside(Split(s))
    decreases |s|
  {
    if s != "" {
      var rest := s[1..];
      AdjacentUnfolds(s);
      AdjacentIff(rest);
      BlankStartIff(rest);
      var parts, more := Split(s), Split(rest);
      if s[0] == '/' {
        assert forall i | 0 <= i < |more| :: parts[i + 1] == more[i];
        if BlankInside(parts) {
          var i :| 0 < i < |parts| - 1 && Blank(parts[i]);
          assert Blank(more[i - 1]);
        }
        if BlankInside(more) {
          var i :| 0 < i < |more| - 1 && Blank(more[i]);
          assert Blank(parts[i + 1]);
        }
        if |more| > 1 && Blank(more[0]) { assert Blank(parts[1]); }
      } else {
        assert forall i | 0 < i < |more| :: parts[i] == more[i];
        if BlankInside(parts) {
          var i :| 0 < i < |parts| - 1 && Blank(parts[i]);
          assert Blank(more[i]);
        }
        if BlankInside(more) {
          var i :| 0 < i < |more| - 1 && Blank(more[i]);
          assert Blank(parts[i]);
        }
      }
    }
  }

  /** The last part is empty exactly for the empty string and after a last slash. */
  lemma {:induction false} LastPartEmptyIff(s: string)
    ensures var parts := Split(s); parts[|parts| - 1] == "" <==> s == "" || s[|s| - 1] == '/'
    decreases |s|
  {
    if s != "" { LastPartEmptyIff(s[1..]); }
  }

  /** Splitting loses nothing. */
  lemma {:induction false} PartsMakeUp(s: string)
    ensures var parts := Split(s);
            && (|parts| == 1 ==> parts[0] == s)
            && (|parts| == 2 ==> parts[0] + ("/" + parts[1]) == s)
    decreases |s|
  {
    if s != "" { PartsMakeUp(s[1..]); }
  }

  lemma {:induction false} LStripBlank(a: string, b: string)
    requires Blank(a)
    ensures LStrip(a + b) == LStrip(b)
    decreases |a|
  {
    if a == "" {
      assert a + b == b;
    } else {
      assert (a + b)[1..] == a[1..] + b;
      LStripBlank(a[1..], b);
    }
  }

  lemma {:induction false} RStripBlank(a: string, b: string)
    requires Blank(b) && a != "" && !Space(a[|a| - 1])
    ensures RStrip(a + b) == a
    decreases |b|
  {
    if b == "" {
      assert a + b == a;
    } else {
      assert (a + b)[..|a + b| - 1] == a + b[..|b| - 1];
      RStripBlank(a, b[..|b| - 1]);
    }
  }

  lemma {:induction false} LStripDrops(s: string) returns (a: string)
    ensures Blank(a) && s == a + LStrip(s)
    decreases |s|
  {
    if s == "" || !Space(s[0]) {
      a := "";
    } else {
      var b := LStripDrops(s[1..]);
      a := [s[0]] + b;
    }
  }

  lemma {:induction false} RStripDrops(s: string) returns (b: string)
    ensures Blank(b) && s == RStrip(s) + b
    decreases |s|
  {
    if s == "" || !Space(s[|s| - 1]) {
      b := "";
    } else {
      var c := RStripDrops(s[..|s| - 1]);
      b := c + [s[|s| - 1]];
    }
  }

  /** Only a slash is left after trimming exactly when there are two parts and both are blank. */
  lemma LoneSlashIff(s: string)
    ensures Strip(s) == "/" <==> |Split(s)| == 2 && Blank(Split(s)[0]) && Blank(Split(s)[1])
  {
    if Strip(s) == "/" {
      var a := LStripDrops(s);
      var b := RStripDrops(LStrip(s));
      assert s == a + ("/" + b);
      SplitConcat(a, b);
      SplitConcat(b, "");
    }
    if |Split(s)| == 2 && Blank(Split(s)[0]) && Blank(Split(s)[1]) {
      PartsMakeUp(s);
      LStripBlank(Split(s)[0], "/" + Split(s)[1]);
      RStripBlank("/", Split(s)[1]);
    }
  }

  lemma {:induction false} ManyPartsIff(s: string)
    ensures |Split(s)| > 1 <==> '/' in s
    decreases |s|
  {
    if s != "" { ManyPartsIff(s[1..]); }
  }

  /** Which complaint comes first, in terms of the parts after the leading slash. */
  lemma ComplaintIs(pointer: string)
    ensures Complaint(pointer) == [NoLeadingSlash] <==> pointer == "" || pointer[0] != '/'
    ensures pointer != "" && pointer[0] == '/' ==>
              var parts := Split(pointer[1..]);
              var ended := |parts| > 1 && parts[|parts| - 1] == "";
              var blank := |parts| == 2 && Blank(parts[0]) && Blank(parts[1]);
              && (Complaint(pointer) == [AdjacentSlash] <==> BlankInside(parts))
              && (Complaint(pointer) == [TrailingSlash] <==> !BlankInside(parts) && ended)
              && (Complaint(pointer) == [NoToken] <==> !BlankInside(parts) && !ended && blank)
              && (Complaint(pointer) == [BadEscape] <==>
                    !BlankInside(parts) && !ended && !blank && HasBadEscape(pointer))
  {
    if pointer != "" && pointer[0] == '/' {
      var s := pointer[1..];
      AdjacentIff(s);
      LastPartEmptyIff(s);
      ManyPartsIff(s);
      LoneSlashIff(s);
      assert s != "" ==> pointer[|pointer| - 1] == s[|s| - 1];
    }
  }

  /** The validator has no complaint exactly about the pointers whose parts are acceptable. */
  lemma AcceptedIff(pointer: string)
    ensures Complaint(pointer) == [] <==> Accepted(pointer)
  {
    if pointer != "" && pointer[0] == '/' {
      var s := pointer[1..];
      AdjacentIff(s);
      LastPartEmptyIff(s);
      ManyPartsIff(s);
      LoneSlashIff(s);
      assert s != "" ==> pointer[|pointer| - 1] == s[|s| - 1];
    }
  }

  // ---- Encoding ----

  /** Section 3 of RFC 6901: `~` is written `~0` and `/` is written `~1`. */
  function Escape(t: string): string {
    if t == "" then ""
    else (if t[0] == '~' then "~0" else if t[0] == '/' then "~1" else [t[0]]) + Escape(t[1..])
  }

  function Join(tokens: seq<string>): string
    requires tokens != []
  {
    if |tokens| == 1 then Escape(tokens[0]) else Escape(tokens[0]) + ("/" + Join(tokens[1..]))
  }

  function Encode(tokens: seq<string>): string {
    if tokens == [] then "" else "/" + Join(tokens)
  }

  lemma {:induction false} UnescapeEscape(t: string)
    ensures Unescape(Escape(t)) == t
    decreases |t|
  {
    if t != "" {
      var e := Escape(t[1..]);
      UnescapeEscape(t[1..]);
      if t[0] == '~' {
        assert ("~0" + e)[2..] == e;
      } else if t[0] == '/' {
        assert ("~1" + e)[2..] == e;
      } else {
        assert ([t[0]] + e)[1..] == e;
      }
    }
  }

  lemma {:induction false} EscapeShape(t: string)
    ensures '/' !in Escape(t) && !HasBadEscape(Escape(t))
    ensures Escape(t) == "" <==> t == ""
    ensures t != "" && !Space(t[0]) ==> !Space(Escape(t)[0])
    decreases |t|
  {
    if t != "" {
      EscapeShape(t[1..]);
      var head := if t[0] == '~' then "~0" else if t[0] == '/' then "~1" else [t[0]];
      assert !HasBadEscape(head);
      GoodEscapesConcat(head, Escape(t[1..]));
    }
  }

  lemma GoodEscapesConcat(a: string, b: string)
    requires !HasBadEscape(a) && !HasBadEscape(b)
    ensures !HasBadEscape(a + b)
  {
    var s := a + b;
    forall i | 0 <= i < |s| && s[i] == '~'
      ensures i + 1 < |s| && (s[i + 1] == '0' || s[i + 1] == '1')
    {
      if i < |a| {
        assert a[i] == '~';
        assert s[i + 1] == a[i + 1];
      } else {
        assert b[i - |a|] == '~';
        assert s[i + 1] == b[i - |a| + 1];
      }
    }
  }

  lemma {:induction false} SplitConcat(a: string, b: string)
    requires '/' !in a
    ensures Split(a + ("/" + b)) == [a] + Split(b) && Split(a) == [a]
    decreases |a|
  {
    if a == "" {
      assert a + ("/" + b) == "/" + b;
      assert ("/" + b)[1..] == b;
    } else {
      assert (a + ("/" + b))[1..] == a[1..] + ("/" + b);
      SplitConcat(a[1..], b);
      assert a[0] in a && [a[0]] + a[1..] == a;
      assert ([a[1..]] + Split(b))[1..] == Split(b);
    }
  }

  lemma {:induction false} SplitJoin(tokens: seq<string>)
    requires tokens != []
    ensures |Split(Join(tokens))| == |tokens|
    ensures forall i | 0 <= i < |tokens| :: Split(Join(tokens))[i] == Escape(tokens[i])
    decreases |tokens|
  {
    EscapeShape(tokens[0]);
    if |tokens| == 1 {
      SplitConcat(Escape(tokens[0]), "");
    } else {
      SplitConcat(Escape(tokens[0]), Join(tokens[1..]));
      SplitJoin(tokens[1..]);
    }
  }

  // ---- The round trip ----

  /** Tokens that survive: not empty, and without surrounding whitespace. */
  predicate Good(tokens: seq<string>) {
    tokens != [] && forall i | 0 <= i < |tokens| :: tokens[i] != "" && Trimmed(tokens[i])
  }

  /** No slash is last, and after a slash comes neither whitespace nor another slash. */
  predicate SlashesApart(s: string) {
    forall i | 0 <= i < |s| && s[i] == '/' :: i + 1 < |s| && s[i + 1] != '/' && !Space(s[i + 1])
  }

  lemma {:induction false} JoinShape(tokens: seq<string>)
    requires Good(tokens)
    ensures var j := Join(tokens);
            j != "" && j[0] != '/' && !Space(j[0]) && SlashesApart(j) && !HasBadEscape(j)
    decreases |tokens|
  {
    var e := Escape(tokens[0]);
    EscapeShape(tokens[0]);
    if |tokens| > 1 {
      var rest := Join(tokens[1..]);
      JoinShape(tokens[1..]);
      GoodEscapesConcat("/", rest);
      GoodEscapesConcat(e, "/" + rest);
      var j := e + ("/" + rest);
      forall i | 0 <= i < |j| && j[i] == '/'
        ensures i + 1 < |j| && j[i + 1] != '/' && !Space(j[i + 1])
      {
        assert i >= |e|;
        if i == |e| {
          assert j[i + 1] == rest[0];
        } else {
          assert rest[i - |e| - 1] == '/' && j[i + 1] == rest[i - |e|];
        }
      }
    }
  }

  lemma ApartNotAdjacent(s: string)
    requires SlashesApart(s)
    ensures !HasAdjacentSlashes(s)
  {
    forall i: nat, j: nat | i < j < |s| ensures !Adjacent(s, i, j) {
      if s[i] == '/' && s[j] == '/' { assert i + 1 < j && !Space(s[i + 1]); }
    }
  }

  lemma GoodTokensAccepted(tokens: seq<string>)
    requires Good(tokens)
    ensures Complaint(Encode(tokens)) == []
  {
    var j := Join(tokens);
    JoinShape(tokens);
    var p := "/" + j;
    assert p[1..] == j && p[|p| - 1] == j[|j| - 1];
    ApartNotAdjacent(j);
    assert Strip(j) != "/" by {
      assert LStrip(j) == j;
      RStripTrims(j);
    }
    GoodEscapesConcat("/", j);
  }

  lemma GoodTokensReturn(tokens: seq<string>)
    requires Good(tokens)
    ensures DecodeParts(Split(LStripSlashes(Encode(tokens)))) == tokens
  {
    var j := Join(tokens);
    JoinShape(tokens);
    assert ("/" + j)[1..] == j;
    assert LStripSlashes("/" + j) == j;
    SplitJoin(tokens);
    DecodeEscaped(Split(j), tokens);
  }

  lemma DecodeEscaped(parts: seq<string>, tokens: seq<string>)
    requires |parts| == |tokens|
    requires forall i | 0 <= i < |tokens| :: parts[i] == Escape(tokens[i]) && Trimmed(tokens[i])
    ensures DecodeParts(parts) == tokens
  {
    forall i | 0 <= i < |tokens| ensures Strip(ReplaceBoth(parts[i])) == tokens[i] {
      ReplacingInOrderIsUnescaping(parts[i]);
      UnescapeEscape(tokens[i]);
      StripTrims(tokens[i]);
    }
  }

  function Slashes(s: string): nat {
    if s == "" then 0 else (if s[0] == '/' then 1 else 0) + Slashes(s[1..])
  }

  lemma {:induction false} SplitCounts(s: string)
    ensures |Split(s)| == Slashes(s) + 1
    decreases |s|
  {
    if s != "" { SplitCounts(s[1..]); }
  }

  lemma {:induction false} StripSlashesCounts(s: string)
    ensures Slashes(LStripSlashes(s)) <= Slashes(s)
    decreases |s|
  {
    if s != "" && s[0] == '/' { StripSlashesCounts(s[1..]); }
  }

  /** An empty token after the first leaves a slash that is doubled or last. */
  lemma {:induction false} EmptyTokenShows(tokens: seq<string>, k: nat) returns (i: nat)
    requires 1 <= k < |tokens| && tokens[k] == ""
    ensures var j := Join(tokens); i < |j| && j[i] == '/' && (i + 1 == |j| || j[i + 1] == '/')
    decreases |tokens|
  {
    var e, rest := Escape(tokens[0]), Join(tokens[1..]);
    if k == 1 {
      i := |e|;
      assert |tokens| > 2 ==> rest == "/" + Join(tokens[1..][1..]);
    } else {
      var m := EmptyTokenShows(tokens[1..], k - 1);
      i := |e| + 1 + m;
      var j := e + ("/" + rest);
      assert j[i] == rest[m];
      assert m + 1 < |rest| ==> j[i + 1] == rest[m + 1];
    }
  }

  lemma EmptyLaterTokenRejected(tokens: seq<string>, k: nat)
    requires 1 <= k < |tokens| && tokens[k] == ""
    ensures Complaint(Encode(tokens)) != []
  {
    var j := Join(tokens);
    var i := EmptyTokenShows(tokens, k);
    var p := "/" + j;
    assert p[1..] == j;
    if i + 1 < |j| {
      assert Adjacent(j, i, i + 1);
    } else {
      assert p[|p| - 1] == '/';
    }
  }

  lemma EmptyFirstTokenLost(tokens: seq<string>)
    requires |tokens| > 1 && tokens[0] == ""
    ensures |Split(LStripSlashes(Encode(tokens)))| < |tokens|
  {
    var j := Join(tokens);
    var rest := Join(tokens[1..]);
    assert j == "/" + rest && ("/" + rest)[1..] == rest && ("/" + j)[1..] == j;
    assert LStripSlashes("/" + j) == LStripSlashes(j) == LStripSlashes(rest);
    SplitJoin(tokens[1..]);
    SplitCounts(rest);
    StripSlashesCounts(rest);
    SplitCounts(LStripSlashes(rest));
  }

  /** Encoding the tokens gives a pointer that is accepted and decodes to them. */
  predicate RoundTrips(tokens: seq<string>) {
    Complaint(Encode(tokens)) == [] && DecodeParts(Split(LStripSlashes(Encode(tokens)))) == tokens
  }

  /**
   Exactly the non-empty lists of non-empty, trimmed tokens survive encoding and
   decoding, apart from the single empty token, which is the pointer "/".
   */
  lemma RoundTripsIff(tokens: seq<string>)
    ensures RoundTrips(tokens) <==> Good(tokens) || tokens == [""]
  {
    if Good(tokens) {
      GoodTokensAccepted(tokens);
      GoodTokensReturn(tokens);
    } else if tokens == [""] {
      RootRoundTrips();
    } else if tokens != [] {
      BadTokensDoNot(tokens);
    }
  }

  lemma RootRoundTrips()
    ensures RoundTrips([""])
  {
    assert Encode([""]) == "/" && "/"[1..] == "";
    assert DecodeParts([""]) == [""];
  }

  lemma BadTokensDoNot(tokens: seq<string>)
    requires tokens != [] && !Good(tokens) && tokens != [""]
    ensures !RoundTrips(tokens)
  {
    var k :| 0 <= k < |tokens| && !(tokens[k] != "" && Trimmed(tokens[k]));
    var parts := Split(LStripSlashes(Encode(tokens)));
    if tokens[k] != "" {
      if |parts| > k {
        StripTrims(ReplaceBoth(parts[k]));
        assert DecodeParts(parts)[k] != tokens[k];
      }
    } else if k == 0 {
      EmptyFirstTokenLost(tokens);
    } else {
      EmptyLaterTokenRejected(tokens, k);
    }
  }
}
