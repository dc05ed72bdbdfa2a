/** That the numbers whose roots give the round constants of SHA-256 are the first 64 primes. */
module Primes {
  import opened Fips180Constants
  import F = Fips180

  ghost predicate IsPrime(n: nat) { n >= 2 && forall d :: 2 <= d < n ==> !Divides(d, n) }

  predicate Divides(d: nat, n: nat)
    requires d > 0
  {
    n % d == 0
  }

  /** A proper divisor that is one of the primes up to 17. Numbers below 18 * 18 without one are prime. */
  predicate HasSmallFactor(n: nat) {
    || (n > 2 && n % 2 == 0) || (n > 3 && n % 3 == 0) || (n > 5 && n % 5 == 0) || (n > 7 && n % 7 == 0)
    || (n > 11 && n % 11 == 0) || (n > 13 && n % 13 == 0) || (n > 17 && n % 17 == 0)
  }

  lemma SmallFactorDivides(n: nat)
    requires HasSmallFactor(n)
    ensures exists d :: 2 <= d < n && Divides(d, n)
  {
    var d := if n > 2 && n % 2 == 0 then 2 else if n > 3 && n % 3 == 0 then 3 else if n > 5 && n % 5 == 0 then 5
             else if n > 7 && n % 7 == 0 then 7 else if n > 11 && n % 11 == 0 then 11
             else if n > 13 && n % 13 == 0 then 13 else 17;
    assert Divides(d, n);
  }

  /** Any divisor up to 17 has one of those primes as a factor. */
  lemma DivisorGivesSmallFactor(n: nat, d: nat)
    requires 2 <= d <= 17 && d < n && Divides(d, n)
    ensures HasSmallFactor(n)
  {
    if d == 4 || d == 8 || d == 16 { HalfDivides(n, d); }
    if d == 6 || d == 10 || d == 12 || d == 14 { HalfDivides(n, d); }
    if d == 9 || d == 15 { ThirdDivides(n, d); }
  }

  lemma HalfDivides(n: nat, d: nat)
    requires d == 4 || d == 6 || d == 8 || d == 10 || d == 12 || d == 14 || d == 16
    requires n % d == 0
    ensures n % 2 == 0
  {
  }

  lemma ThirdDivides(n: nat, d: nat)
    requires d == 9 || d == 15
    requires n % d == 0
    ensures n % 3 == 0
  {
  }

  /** Of two factors of a number below 18 * 18 one is below 18. */
  lemma Cofactor(n: nat, d: nat) returns (e: nat)
    requires 18 <= d < n < 324 && Divides(d, n)
    ensures 2 <= e <= 17 && e < n && Divides(e, n)
  {
    e := n / d;
    assert n == d * e;
    CofactorRange(n, d, e);
    Multiple(d, e);
  }

  lemma CofactorRange(n: nat, d: nat, e: nat)
    requires 18 <= d < n < 324 && n == d * e
    ensures 2 <= e <= 17 && e < n
  {
    assert n >= 18 * e by { MoreTimes(18, d, e); }
    assert e != 0 && e != 1;
  }

  lemma MoreTimes(a: nat, d: nat, e: nat)
    requires a <= d
    ensures a * e <= d * e
  {
  }

  lemma Multiple(d: nat, e: nat)
    requires e > 0
    ensures (d * e) % e == 0
  {
    var q, r := F.QuotientAndRemainder(d * e, e);
    F.UniqueRemainder(e, d, 0, q, r);
  }

  lemma PrimeIffNoSmallFactor(n: nat)
    requires 2 <= n < 324
    ensures IsPrime(n) <==> !HasSmallFactor(n)
  {
    hide HasSmallFactor;
    if HasSmallFactor(n) { SmallFactorDivides(n); }
    if !IsPrime(n) {
      var d :| 2 <= d < n && Divides(d, n);
      if d < 18 {
        DivisorGivesSmallFactor(n, d);
      } else {
        var e := Cofactor(n, d);
        DivisorGivesSmallFactor(n, e);
      }
    }
  }

  /** `n` follows `p`: it has no small factor, and every number in between, of which there are thirteen
      at most, has one. */
  predicate Follows(p: nat, n: nat) {
    && p < n <= p + 14 && !HasSmallFactor(n)
    && (p + 1 >= n || HasSmallFactor(p + 1)) && (p + 2 >= n || HasSmallFactor(p + 2))
    && (p + 3 >= n || HasSmallFactor(p + 3)) && (p + 4 >= n || HasSmallFactor(p + 4))
    && (p + 5 >= n || HasSmallFactor(p + 5)) && (p + 6 >= n || HasSmallFactor(p + 6))
    && (p + 7 >= n || HasSmallFactor(p + 7)) && (p + 8 >= n || HasSmallFactor(p + 8))
    && (p + 9 >= n || HasSmallFactor(p + 9)) && (p + 10 >= n || HasSmallFactor(p + 10))
    && (p + 11 >= n || HasSmallFactor(p + 11)) && (p + 12 >= n || HasSmallFactor(p + 12))
    && (p + 13 >= n || HasSmallFactor(p + 13))
  }

  lemma NothingBetween(p: nat, n: nat, m: nat)
    requires Follows(p, n) && p < m < n
    ensures HasSmallFactor(m)
  {
    hide HasSmallFactor;
    var i := m - p;
    assert m == p + i;
    assert i == 1 || i == 2 || i == 3 || i == 4 || i == 5 || i == 6 || i == 7 || i == 8 || i == 9 || i == 10
        || i == 11 || i == 12 || i == 13;
  }

  predicate IsFollowed(t: nat)
    requires t < 63
  {
    Follows(Prime(t), Prime(t + 1))
  }

  /** One entry of the table and the next, as literals. */
  lemma At(t: nat, p: nat, n: nat)
    requires t < 63
    ensures Prime(t) == p && Prime(t + 1) == n && Follows(p, n) ==> IsFollowed(t)
  {
  }

  lemma FirstGaps()
    ensures Follows(2, 3) && Follows(3, 5) && Follows(5, 7) && Follows(7, 11)
    ensures Follows(11, 13) && Follows(13, 17) && Follows(17, 19) && Follows(19, 23)
  {
  }

  lemma FirstEighth(t: nat)
    requires 0 <= t < 8
    ensures IsFollowed(t)
  {
    hide Follows;
    FirstGaps();
    match t
    case 0 => At(0, 2, 3);  case 1 => At(1, 3, 5);
    case 2 => At(2, 5, 7);  case 3 => At(3, 7, 11);
    case 4 => At(4, 11, 13);  case 5 => At(5, 13, 17);
    case 6 => At(6, 17, 19);  case _ => At(7, 19, 23);
  }

  lemma SecondGaps()
    ensures Follows(23, 29) && Follows(29, 31) && Follows(31, 37) && Follows(37, 41)
    ensures Follows(41, 43) && Follows(43, 47) && Follows(47, 53) && Follows(53, 59)
  {
  }

  lemma SecondEighth(t: nat)
    requires 8 <= t < 16
    ensures IsFollowed(t)
  {
    hide Follows;
    SecondGaps();
    match t
    case 8 => At(8, 23, 29);  case 9 => At(9, 29, 31);
    case 10 => At(10, 31, 37);  case 11 => At(11, 37, 41);
    case 12 => At(12, 41, 43);  case 13 => At(13, 43, 47);
    case 14 => At(14, 47, 53);  case _ => At(15, 53, 59);
  }

  lemma ThirdGaps()
    ensures Follows(59, 61) && Follows(61, 67) && Follows(67, 71) && Follows(71, 73)
    ensures Follows(73, 79) && Follows(79, 83) && Follows(83, 89) && Follows(89, 97)
  {
  }

  lemma ThirdEighth(t: nat)
    requires 16 <= t < 24
    ensures IsFollowed(t)
  {
    hide Follows;
    ThirdGaps();
    match t
    case 16 => At(16, 59, 61);  case 17 => At(17, 61, 67);
    case 18 => At(18, 67, 71);  case 19 => At(19, 71, 73);
    case 20 => At(20, 73, 79);  case 21 => At(21, 79, 83);
    case 22 => At(22, 83, 89);  case _ => At(23, 89, 97);
  }

  lemma FourthGaps()
    ensures Follows(97, 101) && Follows(101, 103) && Follows(103, 107) && Follows(107, 109)
    ensures Follows(109, 113) && Follows(113, 127) && Follows(127, 131) && Follows(131, 137)
  {
  }

  lemma FourthEighth(t: nat)
    requires 24 <= t < 32
    ensures IsFollowed(t)
  {
    hide Follows;
    FourthGaps();
    match t
    case 24 => At(24, 97, 101);  case 25 => At(25, 101, 103);
    case 26 => At(26, 103, 107);  case 27 => At(27, 107, 109);
    case 28 => At(28, 109, 113);  case 29 => At(29, 113, 127);
    case 30 => At(30, 127, 131);  case _ => At(31, 131, 137);
  }

  lemma FifthGaps()
    ensures Follows(137, 139) && Follows(139, 149) && Follows(149, 151) && Follows(151, 157)
    ensures Follows(157, 163) && Follows(163, 167) && Follows(167, 173) && Follows(173, 179)
  {
  }

  lemma FifthEighth(t: nat)
    requires 32 <= t < 40
    ensures IsFollowed(t)
  {
    hide Follows;
    FifthGaps();
    match t
    case 32 => At(32, 137, 139);  case 33 => At(33, 139, 149);
    case 34 => At(34, 149, 151);  case 35 => At(35, 151, 157);
    case 36 => At(36, 157, 163);  case 37 => At(37, 163, 167);
    case 38 => At(38, 167, 173);  case _ => At(39, 173, 179);
  }

  lemma SixthGaps()
    ensures Follows(179, 181) && Follows(181, 191) && Follows(191, 193) && Follows(193, 197)
    ensures Follows(197, 199) && Follows(199, 211) && Follows(211, 223) && Follows(223, 227)
  {
  }

  lemma SixthEighth(t: nat)
    requires 40 <= t < 48
    ensures IsFollowed(t)
  {
    hide Follows;
    SixthGaps();
    match t
    case 40 => At(40, 179, 181);  case 41 => At(41, 181, 191);
    case 42 => At(42, 191, 193);  case 43 => At(43, 193, 197);
    case 44 => At(44, 197, 199);  case 45 => At(45, 199, 211);
    case 46 => At(46, 211, 223);  case _ => At(47, 223, 227);
  }

  lemma SeventhGaps()
    ensures Follows(227, 229) && Follows(229, 233) && Follows(233, 239) && Follows(239, 241)
    ensures Follows(241, 251) && Follows(251, 257) && Follows(257, 263) && Follows(263, 269)
  {
  }

  lemma SeventhEighth(t: nat)
    requires 48 <= t < 56
    ensures IsFollowed(t)
  {
    hide Follows;
    SeventhGaps();
    match t
    case 48 => At(48, 227, 229);  case 49 => At(49, 229, 233);
    case 50 => At(50, 233, 239);  case 51 => At(51, 239, 241);
    case 52 => At(52, 241, 251);  case 53 => At(53, 251, 257);
    case 54 => At(54, 257, 263);  case _ => At(55, 263, 269);
  }

  lemma LastGaps()
    ensures Follows(269, 271) && Follows(271, 277) && Follows(277, 281) && Follows(281, 283)
    ensures Follows(283, 293) && Follows(293, 307) && Follows(307, 311)
  {
  }

  lemma LastEighth(t: nat)
    requires 56 <= t < 63
    ensures IsFollowed(t)
  {
    hide Follows;
    LastGaps();
    match t
    case 56 => At(56, 269, 271);  case 57 => At(57, 271, 277);
    case 58 => At(58, 277, 281);  case 59 => At(59, 281, 283);
    case 60 => At(60, 283, 293);  case 61 => At(61, 293, 307);
    case _ => At(62, 307, 311);
  }

  lemma EntriesFollow(t: nat)
    requires t < 63
    ensures IsFollowed(t)
  {
    if t < 8 { FirstEighth(t); }
    else if t < 16 { SecondEighth(t); }
    else if t < 24 { ThirdEighth(t); }
    else if t < 32 { FourthEighth(t); }
    else if t < 40 { FifthEighth(t); }
    else if t < 48 { SixthEighth(t); }
    else if t < 56 { SeventhEighth(t); }
    else { LastEighth(t); }
  }

  lemma {:induction false} Ascending(j: nat, k: nat)
    requires j < k < 64
    ensures Prime(j) < Prime(k)
  {
    hide Prime, HasSmallFactor;
    EntriesFollow(k - 1);
    if j < k - 1 { Ascending(j, k - 1); }
  }

  lemma Ends()
    ensures Prime(0) == 2 && Prime(63) == 311
  {
  }

  lemma {:induction false} EntryHasNoSmallFactor(t: nat)
    requires t < 64
    ensures !HasSmallFactor(Prime(t)) && 2 <= Prime(t) <= 311
  {
    Ends();
    if t == 0 {
      assert !HasSmallFactor(2);
    } else {
      hide Prime, HasSmallFactor;
      EntriesFollow(t - 1);
      Ascending(0, t);
      if t < 63 { Ascending(t, 63); }
    }
  }

  /** The entry at or before a number. */
  lemma {:induction false} EntryBefore(n: nat, end: nat) returns (t: nat)
    requires end < 64 && 2 <= n <= Prime(end)
    ensures t <= end && Prime(t) <= n && (t < 63 ==> n < Prime(t + 1) || n == Prime(t))
    decreases end
  {
    hide Prime;
    Ends();
    if end == 0 || n == Prime(end) {
      t := end;
    } else if n < Prime(end - 1) {
      t := EntryBefore(n, end - 1);
    } else {
      t := end - 1;
    }
  }

  lemma PrimeIffEntry(n: nat)
    requires n <= Prime(63)
    ensures IsPrime(n) <==> exists k: nat :: k < 64 && Prime(k) == n
  {
    hide Prime, HasSmallFactor;
    Ends();
    if n < 2 {
      forall k: nat | k < 64 ensures Prime(k) != n { EntryHasNoSmallFactor(k); }
    } else {
      var t := EntryBefore(n, 63);
      PrimeIffNoSmallFactor(n);
      if n == Prime(t) {
        EntryHasNoSmallFactor(t);
      } else {
        if t < 63 {
          EntriesFollow(t);
          NothingBetween(Prime(t), Prime(t + 1), n);
        }
        forall k: nat | k < 64 ensures Prime(k) != n { EntryHasNoSmallFactor(k); }
      }
    }
  }

  /** The entries of the table are in ascending order, and the numbers up to the last of them are prime
      exactly if they are entries: the table is the first 64 primes. */
  lemma TableIsFirstPrimes()
    ensures forall j, k :: 0 <= j < k < 64 ==> Prime(j) < Prime(k)
    ensures forall n: nat :: n <= Prime(63) ==> (IsPrime(n) <==> exists k: nat :: k < 64 && Prime(k) == n)
  {
    hide Prime, IsPrime;
    forall j: nat, k: nat | j < k < 64 ensures Prime(j) < Prime(k) { Ascending(j, k); }
    forall n: nat | n <= Prime(63) ensures IsPrime(n) <==> exists k: nat :: k < 64 && Prime(k) == n {
      PrimeIffEntry(n);
    }
  }
}
