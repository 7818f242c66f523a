/** Shared vocabulary: optional values and results in place of Java's null and
    exceptions, and the few java.lang.String / java.lang.Long operations the
    services rely on. */
module Common {

  datatype Option<+T> = None | Some(value: T)

  datatype Result<+T, +E> = Ok(value: T) | Err(error: E)

  /** An uploaded MultipartFile: isEmpty(), getContentType(), getOriginalFilename(). */
  datatype Upload = Upload(isEmpty: bool, contentType: string, originalFilename: string)

  /** The content-type test both services apply to uploads. */
  predicate IsImageType(upload: Upload)
  {
    StartsWith(upload.contentType, "image/")
  }

  /** String.startsWith */
  predicate StartsWith(s: string, prefix: string)
  {
    |prefix| <= |s| && s[..|prefix|] == prefix
  }

  /** String.contains: `part` occurs at the front of `s` or somewhere in its tail. */
  predicate Contains(s: string, part: string)
    decreases |s|
  {
    StartsWith(s, part) || (|s| > 0 && Contains(s[1..], part))
  }

  /** `part` occurs in `s` starting at index `i`. */
  predicate OccursAt(s: string, part: string, i: nat)
  {
    i + |part| <= |s| && s[i..i + |part|] == part
  }

  /** An occurrence at any index makes Contains true ... */
  lemma {:induction false} ContainsAt(s: string, part: string, i: nat)
    requires OccursAt(s, part, i)
    ensures Contains(s, part)
  {
    if i == 0 {
      assert s[..|part|] == part;
    } else {
      assert s[1..][i - 1..i - 1 + |part|] == s[i..i + |part|];
      ContainsAt(s[1..], part, i - 1);
    }
  }

  /** ... and Contains true always has such an index. */
  lemma {:induction false} ContainsWitness(s: string, part: string) returns (i: nat)
    requires Contains(s, part)
    ensures OccursAt(s, part, i)
  {
    if StartsWith(s, part) {
      i := 0;
    } else {
      var j := ContainsWitness(s[1..], part);
      assert s[1..][j..j + |part|] == s[j + 1..j + 1 + |part|];
      i := j + 1;
    }
  }

  /** Character.toLowerCase restricted to ASCII letters. */
  function LowerChar(c: char): char
  {
    if 'A' <= c <= 'Z' then (c as int - 'A' as int + 'a' as int) as char else c
  }

  /** String.toLowerCase (ASCII case mapping). */
  function ToLower(s: string): (r: string)
    ensures |r| == |s|
    ensures forall i :: 0 <= i < |s| ==> r[i] == LowerChar(s[i])
  {
    if s == [] then [] else [LowerChar(s[0])] + ToLower(s[1..])
  }

  /** String.equalsIgnoreCase (ASCII case mapping). */
  predicate EqualsIgnoreCase(a: string, b: string)
  {
    |a| == |b| && forall i :: 0 <= i < |a| ==> LowerChar(a[i]) == LowerChar(b[i])
  }

  predicate IsLowerCase(s: string)
  {
    forall i :: 0 <= i < |s| ==> LowerChar(s[i]) == s[i]
  }

  /** Comparing a lower-case literal ignoring case is the same as lower-casing
      the other side and comparing exactly. */
  lemma EqualsIgnoreCaseIsLowerEquality(lit: string, s: string)
    requires IsLowerCase(lit)
    ensures EqualsIgnoreCase(lit, s) <==> ToLower(s) == lit
  {
    if EqualsIgnoreCase(lit, s) {
      assert forall i :: 0 <= i < |s| ==> ToLower(s)[i] == lit[i];
    }
    if ToLower(s) == lit {
      assert forall i :: 0 <= i < |s| ==> LowerChar(lit[i]) == LowerChar(s[i]) by {
        forall i | 0 <= i < |s| ensures LowerChar(lit[i]) == LowerChar(s[i]) {
          assert ToLower(s)[i] == LowerChar(s[i]);
        }
      }
    }
  }

  function DigitChar(d: nat): char
    requires d < 10
  {
    ('0' as int + d) as char
  }

  function NatToString(n: nat): (r: string)
    ensures |r| > 0
    ensures forall i :: 0 <= i < |r| ==> '0' <= r[i] <= '9'
  {
    if n < 10 then [DigitChar(n)] else NatToString(n / 10) + [DigitChar(n % 10)]
  }

  /** Long.toString, used where an id is concatenated into a message. */
  function IntToString(i: int): string
  {
    if i < 0 then "-" + NatToString(-i) else NatToString(i)
  }
}
