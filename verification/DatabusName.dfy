/** The name under which a client of the small DBinder opens its session, and the buffer it
    is printed into. */
module DatabusName {
  import T = DBinderTypes

  const SESSION_NAME_LENGTH: int := 8
  const ID_DIGITS: int := 10

  /** The decimal digits of a number. */
  function Decimal(n: nat): (s: string)
    ensures |s| > 0
  {
    if n < 10 then [Digit(n)] else Decimal(n / 10) + [Digit(n % 10)]
  }

  function Digit(d: nat): char
    requires d < 10
  {
    '0' + d as char
  }

  /** What %d prints. */
  function Printed(n: int): string {
    if n < 0 then "-" + Decimal(-n) else Decimal(n)
  }

  /** "DBinder%d_%d" */
  function Name(uid: int, pid: int): string {
    "DBinder" + Printed(uid) + "_" + Printed(pid)
  }

  /** How many digits the source counts: exact for what is not negative, 1 below. */
  function Digits(n: int): int {
    if n < 0 then 1 else |Decimal(n)|
  }

  method GetDigits(number: int) returns (n: int)
    ensures n == Digits(number)
  {
    n := 0;
    var rest := number;
    while rest > 0
      invariant n >= 0 && (number <= 0 ==> rest == number && n == 0)
      invariant number > 0 ==> rest >= 0 && |Decimal(number)| == n + (if rest == 0 then 0 else |Decimal(rest)|)
      invariant number > 0 && n == 0 ==> rest == number
      decreases rest
    {
      n := n + 1;
      rest := rest / ID_DIGITS;
    }
    if n == 0 {
      n := n + 1;
    }
  }

  /** The printed name, or nothing without memory or when it does not fit the buffer with
      its terminator. */
  method CreateDatabusName(uid: int, pid: int, alloc: bool) returns (ok: bool, name: string, ghost size: int)
    ensures ok <==> alloc && uid >= 0 && pid >= 0
    ensures ok ==> name == Name(uid, pid) && |name| + 1 == size
  {
    var pidLen := GetDigits(pid);
    var uidLen := GetDigits(uid);
    var sessionNameLen := SESSION_NAME_LENGTH + pidLen + uidLen;
    size := sessionNameLen + 1;
    if !alloc {
      return false, "", size;
    }
    var printed := Name(uid, pid);
    NameFits(uid, pid);
    if |printed| >= sessionNameLen + 1 {
      return false, "", size;
    }
    return true, printed, size;
  }

  /** The name fits exactly when neither number is negative, and then it fills the buffer. */
  lemma NameFits(uid: int, pid: int)
    ensures var size := SESSION_NAME_LENGTH + Digits(pid) + Digits(uid) + 1;
      && (|Name(uid, pid)| + 1 <= size <==> uid >= 0 && pid >= 0)
      && (uid >= 0 && pid >= 0 ==> |Name(uid, pid)| + 1 == size)
  {
    assert |Name(uid, pid)| == SESSION_NAME_LENGTH + |Printed(uid)| + |Printed(pid)|;
  }

  lemma {:induction false} DecimalDigits(n: nat)
    ensures forall i :: 0 <= i < |Decimal(n)| ==> '0' <= Decimal(n)[i] <= '9'
  {
    if n >= 10 {
      DecimalDigits(n / 10);
    }
  }

  lemma {:induction false} DecimalInjective(a: nat, b: nat)
    requires Decimal(a) == Decimal(b)
    ensures a == b
  {
    var s, t := Decimal(a), Decimal(b);
    assert s[|s| - 1] == Digit(a % 10) && t[|t| - 1] == Digit(b % 10);
    if a >= 10 && b >= 10 {
      assert s[..|s| - 1] == Decimal(a / 10) && t[..|t| - 1] == Decimal(b / 10);
      DecimalInjective(a / 10, b / 10);
    }
  }

  /** Two splittings at the first underscore are the same. */
  lemma SameSplit(a: string, b: string, c: string, d: string)
    requires a + "_" + b == c + "_" + d && '_' !in a && '_' !in c
    ensures a == c && b == d
  {
    var s := a + "_" + b;
    assert s[|a|] == '_' && (c + "_" + d)[|c|] == '_';
    assert forall i :: 0 <= i < |a| ==> s[i] == a[i];
    assert forall i :: 0 <= i < |c| ==> (c + "_" + d)[i] == c[i];
    assert |a| == |c|;
    assert s[..|a|] == a && s[..|a|] == c && s[|a| + 1..] == b && s[|a| + 1..] == d;
  }

  lemma SamePrefix(p: string, s: string, t: string)
    requires p + s == p + t
    ensures s == t
  {
    assert s == (p + s)[|p|..] && t == (p + t)[|p|..];
  }

  lemma NameSplit(uid: nat, pid: nat)
    ensures Name(uid, pid) == "DBinder" + (Decimal(uid) + "_" + Decimal(pid))
  {
  }

  /** Different callers get different names. */
  lemma NamesDiffer(uid: nat, pid: nat, uid': nat, pid': nat)
    ensures Name(uid, pid) == Name(uid', pid') <==> uid == uid' && pid == pid'
  {
    if Name(uid, pid) == Name(uid', pid') {
      hide Name;
      NameSplit(uid, pid);
      NameSplit(uid', pid');
      SamePrefix("DBinder", Decimal(uid) + "_" + Decimal(pid), Decimal(uid') + "_" + Decimal(pid'));
      DecimalDigits(uid);
      DecimalDigits(uid');
      hide Decimal;
      SameSplit(Decimal(uid), Decimal(pid), Decimal(uid'), Decimal(pid'));
      DecimalInjective(uid, uid');
      DecimalInjective(pid, pid');
    }
  }

  // ----- reading a number back

  /** Digits in front of a string are read before it. */
  lemma {:induction false} ReadsDigits(a: string, b: string, acc: nat)
    requires forall i :: 0 <= i < |a| ==> '0' <= a[i] <= '9'
    ensures T.LeadingNumber(a + b, acc) == T.LeadingNumber(b, T.LeadingNumber(a, acc))
  {
    if a == [] {
      assert a + b == b;
    } else {
      assert (a + b)[1..] == a[1..] + b;
      ReadsDigits(a[1..], b, 10 * acc + (a[0] as int - '0' as int));
    }
  }

  /** A printed number is read back as itself. */
  lemma {:induction false} ReadsDecimal(n: nat)
    ensures T.LeadingNumber(Decimal(n), 0) == n
    ensures n > 0 ==> Decimal(n)[0] != '0'
  {
    var last := [Digit(n % 10)];
    assert last[1..] == [];
    if n < 10 {
      assert Decimal(n) == last;
    } else {
      ReadsDecimal(n / 10);
      DecimalDigits(n / 10);
      ReadsDigits(Decimal(n / 10), last, 0);
    }
  }

  /** A service name that starts with a printed number is parsed as that number exactly when
      it fits 64 bits, whatever follows that is not a digit. */
  lemma ServiceNumber(n: nat, rest: string)
    requires rest != [] ==> !('0' <= rest[0] <= '9')
    ensures T.ParseU64(Decimal(n) + rest) == if n < 0x1_0000_0000_0000_0000 then T.Some(n) else T.None
  {
    ReadsDecimal(n);
    DecimalDigits(n);
    ReadsDigits(Decimal(n), rest, 0);
    assert (Decimal(n) + rest)[0] == Decimal(n)[0];
  }

  /** A service name that does not start with a digit is no number. */
  lemma NoServiceNumber(s: string)
    requires s == [] || !('0' <= s[0] <= '9')
    ensures T.ParseU64(s) == T.None
  {
  }

  /** A session name starts with its prefix and tells the user and then the process, each read
      as a decimal number, with an underscore between them and nothing behind. */
  lemma NameTells(uid: nat, pid: nat)
    ensures var s := Name(uid, pid); var i := 7 + |Decimal(uid)|;
      && i < |s| && s[..7] == "DBinder" && s[i] == '_'
      && T.LeadingNumber(s[7..], 0) == uid && T.LeadingNumber(s[i + 1..], 0) == pid
      && s[i + 1..] == Decimal(pid)
  {
    NameSplit(uid, pid);
    ReadsDecimal(uid);
    ReadsDecimal(pid);
    DecimalDigits(uid);
    ReadsDigits(Decimal(uid), "_" + Decimal(pid), 0);
    hide Decimal, Name;
    Cuts("DBinder", Decimal(uid), Decimal(pid));
  }

  /** Where the parts of a name stand. */
  lemma Cuts(prefix: string, u: string, p: string)
    ensures var s := prefix + (u + "_" + p);
      && |prefix| + |u| < |s| && s[..|prefix|] == prefix && s[|prefix| + |u|] == '_'
      && s[|prefix|..] == u + ("_" + p) && s[|prefix| + |u| + 1..] == p
  {
    var s := prefix + (u + "_" + p);
    assert s == prefix + u + "_" + p;
    assert u + "_" + p == u + ("_" + p);
  }
}
