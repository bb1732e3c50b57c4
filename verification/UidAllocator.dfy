// Certificate UIDs: SHORTCODE-YYYY-NNNNN, numbered by looking at the lexicographically largest
// UID already stored (backend/repositories/certificate_repository.py).
module UidAllocator {
  import opened Basics
  import opened Tables

  // ----- Numbers as text -----

  function DigitChar(n: nat): (c: char)
    requires n < 10
    ensures IsDigit(c)
  {
    (n + 48) as char
  }

  /** What a digit is worth; the column's CHECK keeps other characters out. */
  function DigitOf(c: char): nat {
    if IsDigit(c) then c as int - 48 else 0
  }

  ghost predicate AllDigits(s: string) {
    forall i :: 0 <= i < |s| ==> IsDigit(s[i])
  }

  /** A number in decimal digits. */
  function Decimal(n: nat): (s: string)
    ensures |s| > 0 && AllDigits(s)
  {
    if n < 10 then [DigitChar(n)] else Decimal(n / 10) + [DigitChar(n % 10)]
  }

  /** Zeros in front, up to five digits. */
  function Pad(s: string): (r: string)
    ensures |r| == if |s| < 5 then 5 else |s|
    ensures AllDigits(s) ==> AllDigits(r)
    decreases 5 - |s|
  {
    if |s| >= 5 then s else Pad(['0'] + s)
  }

  /** The number a digit string stands for. */
  function ParseInt(s: string): nat {
    if s == "" then 0 else ParseInt(s[..|s| - 1]) * 10 + DigitOf(s[|s| - 1])
  }

  /** What follows the last dash. */
  function AfterLastDash(s: string): string {
    if s == "" || s[|s| - 1] == '-' then "" else AfterLastDash(s[..|s| - 1]) + [s[|s| - 1]]
  }

  /** The order of ORDER BY on text: the first differing character decides, a proper prefix comes first. */
  ghost predicate LexLess(a: string, b: string) {
    exists k: nat :: DecidedAt(a, b, k)
  }

  predicate DecidedAt(a: string, b: string, k: nat) {
    k <= |a| && k < |b| && a[..k] == b[..k] && (k < |a| ==> a[k] < b[k])
  }

  predicate LexBefore(a: string, b: string)
    ensures LexBefore(a, b) <==> LexLess(a, b)
  {
    if b == "" then false
    else if a == "" then
      assert DecidedAt(a, b, 0);
      true
    else if a[0] != b[0] then
      LexHead(a, b);
      a[0] < b[0]
    else
      LexTail(a, b);
      LexBefore(a[1..], b[1..])
  }

  lemma LexHead(a: string, b: string)
    requires a != "" && b != "" && a[0] != b[0]
    ensures LexLess(a, b) <==> a[0] < b[0]
  {
    if a[0] < b[0] {
      assert DecidedAt(a, b, 0);
    }
    if LexLess(a, b) {
      var k: nat :| DecidedAt(a, b, k);
      if k > 0 {
        assert a[..k][0] == b[..k][0];
      }
    }
  }

  lemma DecidedInTail(a: string, b: string, k: nat)
    requires a != "" && b != "" && k > 0 && DecidedAt(a, b, k)
    ensures DecidedAt(a[1..], b[1..], k - 1)
  {
    assert a[1..][..k - 1] == a[..k][1..];
    assert b[1..][..k - 1] == b[..k][1..];
  }

  lemma DecidedAfterHead(a: string, b: string, k: nat)
    requires a != "" && b != "" && a[0] == b[0] && DecidedAt(a[1..], b[1..], k)
    ensures DecidedAt(a, b, k + 1)
  {
    assert a[..k + 1] == [a[0]] + a[1..][..k];
    assert b[..k + 1] == [b[0]] + b[1..][..k];
  }

  lemma LexTail(a: string, b: string)
    requires a != "" && b != "" && a[0] == b[0]
    ensures LexLess(a, b) <==> LexLess(a[1..], b[1..])
  {
    if LexLess(a, b) {
      var k: nat :| DecidedAt(a, b, k);
      DecidedInTail(a, b, k);
    }
    if LexLess(a[1..], b[1..]) {
      var k: nat :| DecidedAt(a[1..], b[1..], k);
      DecidedAfterHead(a, b, k);
    }
  }

  lemma {:induction false} LexPrefix(p: string, a: string, b: string)
    ensures LexLess(p + a, p + b) <==> LexLess(a, b)
  {
    if p == "" {
      assert p + a == a && p + b == b;
    } else {
      LexTail(p + a, p + b);
      assert (p + a)[1..] == p[1..] + a && (p + b)[1..] == p[1..] + b;
      LexPrefix(p[1..], a, b);
    }
  }

  lemma {:induction false} LexSnoc(a: string, x: char, b: string, y: char)
    requires |a| == |b|
    ensures LexLess(a + [x], b + [y]) <==> LexLess(a, b) || (a == b && x < y)
  {
    if a == "" {
      assert a + [x] == [x] && b + [y] == [y];
      if x != y {
        LexHead([x], [y]);
      } else {
        LexTail([x], [y]);
      }
    } else if a[0] != b[0] {
      LexHead(a, b);
      LexHead(a + [x], b + [y]);
    } else {
      LexTail(a, b);
      LexTail(a + [x], b + [y]);
      assert (a + [x])[1..] == a[1..] + [x] && (b + [y])[1..] == b[1..] + [y];
      LexSnoc(a[1..], x, b[1..], y);
      assert a == [a[0]] + a[1..] && b == [b[0]] + b[1..];
    }
  }

  /** On digit strings of one length the text order is the numeric order. */
  lemma {:induction false} LexIsNumeric(a: string, b: string)
    requires |a| == |b| && AllDigits(a) && AllDigits(b)
    ensures LexLess(a, b) <==> ParseInt(a) < ParseInt(b)
  {
    if a == "" {
    } else {
      var n := |a| - 1;
      LexIsNumeric(a[..n], b[..n]);
      LexSnoc(a[..n], a[n], b[..n], b[n]);
      assert a == a[..n] + [a[n]] && b == b[..n] + [b[n]];
      if ParseInt(a[..n]) == ParseInt(b[..n]) {
        SameValueSameDigits(a[..n], b[..n]);
      }
    }
  }

  lemma LastDigit(x: int, c: char, y: int, d: char)
    requires IsDigit(c) && IsDigit(d) && x * 10 + DigitOf(c) == y * 10 + DigitOf(d)
    ensures x == y && c == d
  {
  }

  lemma ParseSplit(s: string)
    returns (init: string, c: char)
    requires s != ""
    ensures s == init + [c] && |init| == |s| - 1 && ParseInt(s) == ParseInt(init) * 10 + DigitOf(c)
    ensures AllDigits(s) ==> AllDigits(init) && IsDigit(c)
  {
    init, c := s[..|s| - 1], s[|s| - 1];
  }

  lemma {:induction false} SameValueSameDigits(a: string, b: string)
    requires |a| == |b| && AllDigits(a) && AllDigits(b) && ParseInt(a) == ParseInt(b)
    ensures a == b
    decreases |a|
  {
    if a == "" {
    } else {
      var x, c := ParseSplit(a);
      var y, d := ParseSplit(b);
      LastDigit(ParseInt(x), c, ParseInt(y), d);
      SameValueSameDigits(x, y);
    }
  }

  lemma {:induction false} ParseDecimal(n: nat)
    ensures ParseInt(Decimal(n)) == n
  {
    if n < 10 {
      assert ParseInt([DigitChar(n)]) == ParseInt("") * 10 + n;
    } else {
      ParseDecimal(n / 10);
      var s := Decimal(n);
      assert s[..|s| - 1] == Decimal(n / 10);
    }
  }

  lemma {:induction false} ParseLeadingZero(s: string)
    ensures ParseInt(['0'] + s) == ParseInt(s)
  {
    if s == "" {
      assert ParseInt("0") == ParseInt("") * 10;
    } else {
      var t := ['0'] + s;
      assert t[..|t| - 1] == ['0'] + s[..|s| - 1];
      ParseLeadingZero(s[..|s| - 1]);
    }
  }

  lemma {:induction false} ParsePad(s: string)
    ensures ParseInt(Pad(s)) == ParseInt(s)
    decreases 5 - |s|
  {
    if |s| < 5 {
      ParsePad(['0'] + s);
      ParseLeadingZero(s);
    }
  }

  lemma DecimalLength(n: nat)
    ensures |Decimal(n)| <= 5 <==> n < 100000
  {
    if n >= 10 {
      var n1 := n / 10;
      if n1 >= 10 {
        var n2 := n1 / 10;
        if n2 >= 10 {
          var n3 := n2 / 10;
          if n3 >= 10 {
            assert |Decimal(n3)| == |Decimal(n3 / 10)| + 1;
            assert n3 / 10 < 10 ==> |Decimal(n3 / 10)| == 1;
            assert n3 / 10 >= 10 ==> |Decimal(n3 / 10)| == |Decimal(n3 / 10 / 10)| + 1;
          }
          assert |Decimal(n2)| == |Decimal(n3)| + 1;
        }
        assert |Decimal(n1)| == |Decimal(n2)| + 1;
      }
      assert |Decimal(n)| == |Decimal(n1)| + 1;
    }
  }

  /** A sequence number, zero-padded to five digits. */
  function Number(n: nat): (s: string)
    ensures |s| >= 5 && AllDigits(s)
    ensures ParseInt(s) == n
    ensures |s| == 5 <==> n < 100000
  {
    ParseDecimal(n);
    ParsePad(Decimal(n));
    DecimalLength(n);
    Pad(Decimal(n))
  }

  // ----- The allocator -----

  /** LIKE, with its wild cards and its escape character. */
  predicate Like(s: string, pattern: string)
    decreases |pattern|, |s|
  {
    if pattern == "" then s == ""
    else if pattern[0] == '%' then Like(s, pattern[1..]) || (s != "" && Like(s[1..], pattern))
    else if pattern[0] == '\\' && |pattern| > 1 then
      s != "" && s[0] == pattern[1] && Like(s[1..], pattern[2..])
    else s != "" && (pattern[0] == '_' || pattern[0] == s[0]) && Like(s[1..], pattern[1..])
  }

  function Prefix(code: string, year: nat): string {
    code + "-" + Decimal(year) + "-"
  }

  function FormatUid(code: string, year: nat, sequence: nat): string {
    Prefix(code, year) + Number(sequence)
  }

  /** The greatest UID, as text, that matches the pattern. */
  function MaxLike(certs: seq<Certificate>, pattern: string): Option<string> {
    if certs == [] then None
    else
      var rest := MaxLike(certs[..|certs| - 1], pattern);
      var uid := certs[|certs| - 1].uid;
      if !Like(uid, pattern) then rest
      else if rest.None? || LexBefore(rest.value, uid) then Some(uid)
      else rest
  }

  /** get_next_uid_sequence */
  function NextSequence(certs: seq<Certificate>, code: string, year: nat): nat {
    match MaxLike(certs, Prefix(code, year) + "%")
    case None => 1
    case Some(uid) => ParseInt(AfterLastDash(uid)) + 1
  }

  // ----- What it hands out -----

  ghost predicate IsCode(code: string) {
    code != "" && forall i :: 0 <= i < |code| ==> IsCodeChar(code[i])
  }

  /** The numbers already given under a prefix, in the order they were committed. */
  ghost function Issued(certs: seq<Certificate>, prefix: string): seq<nat> {
    if certs == [] then []
    else
      var uid := certs[|certs| - 1].uid;
      Issued(certs[..|certs| - 1], prefix) +
      if prefix <= uid then [ParseInt(uid[|prefix|..])] else []
  }

  /** 1, 2, ..., n */
  ghost function Count(n: nat): seq<nat> {
    seq(n, i => i + 1)
  }

  /** For every short code and year, the numbers committed so far are 1, 2, 3, ... in that order. */
  ghost predicate Allocated(certs: seq<Certificate>) {
    && (forall k :: 0 <= k < |certs| ==> IsUid(certs[k].uid))
    && forall code, year: nat | IsCode(code) ::
         Issued(certs, Prefix(code, year)) == Count(|Issued(certs, Prefix(code, year))|)
  }

  lemma {:induction false} LikeAnything(s: string)
    ensures Like(s, "%")
  {
    if s == "" {
      assert Like("", "%"[1..]);
    } else {
      LikeAnything(s[1..]);
    }
  }

  lemma {:induction false} LikePrefix(s: string, p: string)
    requires forall i :: 0 <= i < |p| ==> IsCodeChar(p[i]) || p[i] == '-'
    ensures Like(s, p + "%") <==> p <= s
  {
    if p == "" {
      assert p + "%" == "%";
      LikeAnything(s);
    } else if s != "" && s[0] == p[0] {
      assert (p + "%")[1..] == p[1..] + "%";
      LikePrefix(s[1..], p[1..]);
      assert s == [s[0]] + s[1..] && p == [p[0]] + p[1..];
    }
  }

  lemma PrefixIsPlain(code: string, year: nat)
    requires IsCode(code)
    ensures forall i :: 0 <= i < |Prefix(code, year)| ==> IsCodeChar(Prefix(code, year)[i]) || Prefix(code,
                                                            year)[i] == '-'
  {
  }

  /** A stored UID that starts with a prefix consists of the prefix and a five-digit number. */
  lemma TailIsNumber(uid: string, code: string, year: nat)
    requires IsUid(uid) && IsCode(code) && Prefix(code, year) <= uid
    ensures |uid| == |Prefix(code, year)| + 5
    ensures uid == Prefix(code, year) + Number(ParseInt(uid[|Prefix(code, year)|..]))
    ensures ParseInt(uid[|Prefix(code, year)|..]) < 100000
  {
    var p, y := Prefix(code, year), Decimal(year);
    assert p == code + "-" + y + "-";
    assert forall i :: 0 <= i < |p| ==> uid[i] == p[i];
    assert forall i :: 0 <= i < |code| ==> uid[i] == code[i];
    assert uid[|code|] == '-' == uid[|p| - 1];
    assert |code| == |uid| - 11;
    assert |p| == |code| + |y| + 2;
    assert forall i :: 0 <= i < |y| ==> uid[|code| + 1 + i] == y[i];
    assert |y| == 4;
    var tail := uid[|p|..];
    assert AllDigits(tail) && |tail| == 5;
    FiveDigitsBound(tail);
    SameValueSameDigits(tail, Number(ParseInt(tail)));
    assert uid == p + tail;
  }

  lemma FiveDigitsBound(s: string)
    requires |s| == 5 && AllDigits(s)
    ensures ParseInt(s) < 100000
  {
    assert s[..4][..3] == s[..3] && s[..3][..2] == s[..2] && s[..2][..1] == s[..1] && s[..1][..0] == "";
    assert ParseInt(s[..1]) == DigitOf(s[0]);
    assert ParseInt(s[..2]) == ParseInt(s[..1]) * 10 + DigitOf(s[1]);
    assert ParseInt(s[..3]) == ParseInt(s[..2]) * 10 + DigitOf(s[2]);
    assert ParseInt(s[..4]) == ParseInt(s[..3]) * 10 + DigitOf(s[3]);
  }

  lemma {:induction false} AfterLastDashIs(a: string, b: string)
    requires forall i :: 0 <= i < |b| ==> b[i] != '-'
    ensures AfterLastDash(a + "-" + b) == b
  {
    var s := a + "-" + b;
    if b == "" {
    } else {
      assert s[..|s| - 1] == a + "-" + b[..|b| - 1];
      AfterLastDashIs(a, b[..|b| - 1]);
    }
  }

  lemma FormatParses(code: string, year: nat, n: nat)
    ensures AfterLastDash(FormatUid(code, year, n)) == Number(n)
    ensures FormatUid(code, year, n)[|Prefix(code, year)|..] == Number(n)
  {
    AfterLastDashIs(code + "-" + Decimal(year), Number(n));
    assert FormatUid(code, year, n) == code + "-" + Decimal(year) + "-" + Number(n);
  }

  lemma LaterIsGreater(p: string, n: nat)
    requires 1 < n < 100000
    ensures LexBefore(p + Number(n - 1), p + Number(n))
  {
    LexPrefix(p, Number(n - 1), Number(n));
    LexIsNumeric(Number(n - 1), Number(n));
  }

  /** If the committed numbers count up, the last committed UID carries the last of them. */
  lemma LastIssued(certs: seq<Certificate>, code: string, year: nat)
    requires certs != [] && IsUid(certs[|certs| - 1].uid) && IsCode(code)
    requires Issued(certs, Prefix(code, year)) == Count(|Issued(certs, Prefix(code, year))|)
    ensures
      var init, uid := certs[..|certs| - 1], certs[|certs| - 1].uid;
      var p := Prefix(code, year);
      && Issued(init, p) == Count(|Issued(init, p)|)
      && (p <= uid ==>
            && |Issued(certs, p)| == |Issued(init, p)| + 1 < 100000
            && uid == FormatUid(code, year, |Issued(certs, p)|))
      && (!(p <= uid) ==> Issued(certs, p) == Issued(init, p))
  {
    var init, uid := certs[..|certs| - 1], certs[|certs| - 1].uid;
    var p := Prefix(code, year);
    var before, after := Issued(init, p), Issued(certs, p);
    assert before == after[..|before|] == Count(|before|);
    if p <= uid {
      assert after[|after| - 1] == |after|;
      TailIsNumber(uid, code, year);
    }
  }

  /** The text maximum is the UID that was given out last. */
  lemma {:induction false} MaxIsLast(certs: seq<Certificate>, code: string, year: nat)
    requires forall k :: 0 <= k < |certs| ==> IsUid(certs[k].uid)
    requires IsCode(code)
    requires Issued(certs, Prefix(code, year)) == Count(|Issued(certs, Prefix(code, year))|)
    ensures MaxLike(certs, Prefix(code, year) + "%") ==
            var n := |Issued(certs, Prefix(code, year))|;
            if n == 0 then None else Some(FormatUid(code, year, n))
  {
    if certs == [] {
    } else {
      var p, uid := Prefix(code, year), certs[|certs| - 1].uid;
      PrefixIsPlain(code, year);
      LikePrefix(uid, p);
      LastIssued(certs, code, year);
      MaxIsLast(certs[..|certs| - 1], code, year);
      if p <= uid && |Issued(certs, p)| > 1 {
        LaterIsGreater(p, |Issued(certs, p)|);
      }
    }
  }

  /** The allocator agrees with the numeric sequence: the next number is one more than the count. */
  lemma NextIsCount(certs: seq<Certificate>, code: string, year: nat)
    requires Allocated(certs) && IsCode(code)
    ensures NextSequence(certs, code, year) == |Issued(certs, Prefix(code, year))| + 1
  {
    MaxIsLast(certs, code, year);
    var n := |Issued(certs, Prefix(code, year))|;
    if n > 0 {
      FormatParses(code, year, n);
    }
  }

  lemma {:induction false} IssuedHas(certs: seq<Certificate>, prefix: string, k: nat)
    requires k < |certs| && prefix <= certs[k].uid
    ensures ParseInt(certs[k].uid[|prefix|..]) in Issued(certs, prefix)
  {
    if k == |certs| - 1 {
    } else {
      IssuedHas(certs[..|certs| - 1], prefix, k);
    }
  }

  /** The UID the allocator proposes is not taken, whichever university holds the other UIDs. */
  lemma NextIsFresh(certs: seq<Certificate>, code: string, year: nat, k: nat)
    requires Allocated(certs) && IsCode(code) && k < |certs|
    ensures certs[k].uid != FormatUid(code, year, NextSequence(certs, code, year))
  {
    var p := Prefix(code, year);
    var n := NextSequence(certs, code, year);
    NextIsCount(certs, code, year);
    assert n !in Count(|Issued(certs, p)|);
    FormatParses(code, year, n);
    if p <= certs[k].uid {
      IssuedHas(certs, p, k);
    }
  }

  /**
   * The proposed UID passes the column's CHECK exactly for an alphanumeric code, a four-digit year
   * and at most 99999 certificates.
   */
  lemma ProposalFits(code: string, year: nat, n: nat)
    requires |code| <= 20
    ensures IsUid(FormatUid(code, year, n)) <==> IsCode(code) && 1000 <= year <= 9999 && n <= 99999
  {
    var y, uid := Decimal(year), FormatUid(code, year, n);
    assert uid == code + "-" + y + "-" + Number(n);
    YearDigits(year);
    if IsUid(uid) {
      var d := Number(n);
      assert forall i :: 0 <= i < |d| ==> uid[|code| + |y| + 2 + i] == d[i];
      assert forall i :: 0 <= i < |y| ==> uid[|code| + 1 + i] == y[i];
      assert uid[|code|] == '-' == uid[|code| + |y| + 1];
      assert |d| == 5;
      assert |y| == 4;
      assert forall i :: 0 <= i < |code| ==> code[i] == uid[i];
    }
  }

  lemma YearDigits(year: nat)
    ensures |Decimal(year)| == 4 <==> 1000 <= year <= 9999
  {
    if year >= 10 {
      var y1 := year / 10;
      assert |Decimal(year)| == |Decimal(y1)| + 1;
      if y1 >= 10 {
        var y2 := y1 / 10;
        assert |Decimal(y1)| == |Decimal(y2)| + 1;
        if y2 >= 10 {
          assert |Decimal(y2)| == |Decimal(y2 / 10)| + 1;
          assert y2 / 10 < 10 <==> |Decimal(y2 / 10)| == 1;
        }
      }
    }
  }

  /** Committing the proposal keeps every code's and every year's numbers consecutive. */
  lemma CommitKeepsAllocated(certs: seq<Certificate>, cert: Certificate, code: string, year: nat)
    requires Allocated(certs) && |code| <= 20
    requires cert.uid == FormatUid(code, year, NextSequence(certs, code, year)) && IsUid(cert.uid)
    ensures Allocated(certs + [cert])
  {
    ProposalFits(code, year, NextSequence(certs, code, year));
    forall code', year': nat | IsCode(code')
      ensures Issued(certs + [cert], Prefix(code', year'))
              == Count(|Issued(certs + [cert], Prefix(code', year'))|)
    {
      CommitKeepsClass(certs, cert, code, year, code', year');
    }
  }

  lemma IssuedSnoc(certs: seq<Certificate>, cert: Certificate, prefix: string)
    ensures Issued(certs + [cert], prefix) ==
            Issued(certs, prefix) + if prefix <= cert.uid then [ParseInt(cert.uid[|prefix|..])] else []
  {
    var all := certs + [cert];
    assert all[..|all| - 1] == certs;
  }

  /** A stored UID belongs to one code and year only. */
  lemma OnePrefix(uid: string, code: string, year: nat, code': string, year': nat)
    requires IsUid(uid) && IsCode(code) && IsCode(code')
    requires Prefix(code, year) <= uid && Prefix(code', year') <= uid
    ensures Prefix(code, year) == Prefix(code', year')
  {
    TailIsNumber(uid, code, year);
    TailIsNumber(uid, code', year');
  }

  lemma CountSnoc(before: seq<nat>, after: seq<nat>)
    requires before == Count(|before|) && after == before + [|before| + 1]
    ensures after == Count(|after|)
  {
  }

  lemma CommitNumber(certs: seq<Certificate>, uid: string, code: string, year: nat)
    requires Allocated(certs) && IsCode(code) && uid == FormatUid(code, year, NextSequence(certs, code, year))
    ensures Prefix(code, year) <= uid
    ensures ParseInt(uid[|Prefix(code, year)|..]) == |Issued(certs, Prefix(code, year))| + 1
  {
    NextIsCount(certs, code, year);
    FormatParses(code, year, NextSequence(certs, code, year));
  }

  lemma CommitKeepsClass(certs: seq<Certificate>, cert: Certificate, code: string, year: nat,
                         code': string, year': nat)
    requires Allocated(certs) && IsCode(code) && IsCode(code')
    requires cert.uid == FormatUid(code, year, NextSequence(certs, code, year)) && IsUid(cert.uid)
    ensures Issued(certs + [cert], Prefix(code', year')) == Count(|Issued(certs + [cert], Prefix(code', year'))|)
  {
    var p := Prefix(code', year');
    IssuedSnoc(certs, cert, p);
    if p <= cert.uid {
      CommitNumber(certs, cert.uid, code, year);
      OnePrefix(cert.uid, code, year, code', year');
      CountSnoc(Issued(certs, p), Issued(certs + [cert], p));
    }
  }
}
