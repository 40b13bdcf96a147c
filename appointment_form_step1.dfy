/** The client step of the appointment form: required-name and phone
    validation, the phone formatter, and the phone change handler. */
module AppointmentFormStep1 {
  import opened Text

  datatype FormData = FormData(client_name: string, client_phone: string, notes: string)

  const NameKey := "client_name"
  const PhoneKey := "client_phone"
  const NameRequired := "Nome da cliente é obrigatório"
  const PhoneRequired := "Telefone é obrigatório"
  const PhoneInvalid := "Telefone deve ter formato válido"

  /** `/^\(\d{2}\)\s\d{4,5}-\d{4}$/`: "(DD) DDDD-DDDD" or "(DD) DDDDD-DDDD",
      any single whitespace character after the parenthesis. */
  predicate MatchesMaskedPhone(s: string)
  {
    && (|s| == 14 || |s| == 15)
    && s[0] == '(' && IsDigit(s[1]) && IsDigit(s[2]) && s[3] == ')' && IsWhitespace(s[4])
    && AllDigits(s[5..|s| - 5]) && s[|s| - 5] == '-' && AllDigits(s[|s| - 4..])
  }

  /** `/^\d{10,11}$/.test(s.replace(/\D/g, ''))` */
  predicate HasTenOrElevenDigits(s: string)
  {
    |Digits(s)| == 10 || |Digits(s)| == 11
  }

  lemma DigitsOfNonDigit(c: char)
    requires !IsDigit(c)
    ensures Digits([c]) == []
  {
    DigitsOfNonDigits([c]);
  }

  /** Every string the mask accepts holds 10 or 11 digits, so the mask branch
      of the phone check never accepts anything the digit count rejects. */
  lemma MaskedPhoneHasTenOrElevenDigits(s: string)
    requires MatchesMaskedPhone(s)
    ensures HasTenOrElevenDigits(s)
  {
    var n := |s|;
    var mid, tail := s[5..n - 5], s[n - 4..];
    assert s == [s[0]] + s[1..3] + [s[3]] + [s[4]] + mid + [s[n - 5]] + tail;
    assert AllDigits(s[1..3]);
    WhitespaceIsNotDigit(s[4]);
    DigitsOfNonDigit(s[0]);
    DigitsOfNonDigit(s[3]);
    DigitsOfNonDigit(s[4]);
    DigitsOfNonDigit(s[n - 5]);
    DigitsOfDigits(s[1..3]);
    DigitsOfDigits(mid);
    DigitsOfDigits(tail);
    DigitsConcat([s[0]] + s[1..3] + [s[3]] + [s[4]] + mid + [s[n - 5]], tail);
    DigitsConcat([s[0]] + s[1..3] + [s[3]] + [s[4]] + mid, [s[n - 5]]);
    DigitsConcat([s[0]] + s[1..3] + [s[3]] + [s[4]], mid);
    DigitsConcat([s[0]] + s[1..3] + [s[3]], [s[4]]);
    DigitsConcat([s[0]] + s[1..3], [s[3]]);
    DigitsConcat([s[0]], s[1..3]);
  }

  /** The error map of `handleSubmit`: a name error exactly when the name is
      blank; a phone error exactly when the phone is blank ("required") or,
      since the mask is subsumed, has neither 10 nor 11 digits ("format"). */
  function ClientErrors(f: FormData): (r: map<string, string>)
    ensures r.Keys <= {NameKey, PhoneKey}
    ensures NameKey in r <==> AllWhitespace(f.client_name)
    ensures NameKey in r ==> r[NameKey] == NameRequired
    ensures PhoneKey in r <==> AllWhitespace(f.client_phone) || !HasTenOrElevenDigits(f.client_phone)
    ensures AllWhitespace(f.client_phone) ==> r[PhoneKey] == PhoneRequired
    ensures !AllWhitespace(f.client_phone) && !HasTenOrElevenDigits(f.client_phone) ==> r[PhoneKey] == PhoneInvalid
  {
    TrimEmpty(f.client_name);
    TrimEmpty(f.client_phone);
    assert MatchesMaskedPhone(f.client_phone) ==> HasTenOrElevenDigits(f.client_phone) by {
      if MatchesMaskedPhone(f.client_phone) { MaskedPhoneHasTenOrElevenDigits(f.client_phone); }
    }
    var e := if Trim(f.client_name) == "" then map[NameKey := NameRequired] else map[];
    if Trim(f.client_phone) == "" then e[PhoneKey := PhoneRequired]
    else if !MatchesMaskedPhone(f.client_phone) && !HasTenOrElevenDigits(f.client_phone) then e[PhoneKey := PhoneInvalid]
    else e
  }

  /** `numbers.replace(/(\d{2})(\d{k})(\d{4})/, '($1) $2-$3')` on a string
      of digits: the leftmost match starts at the first digit when there are
      at least `k + 6` of them, and digits after the match are kept. */
  function Punctuate(n: string, k: nat): (r: string)
    requires AllDigits(n)
  {
    if |n| >= k + 6 then "(" + n[..2] + ") " + n[2..2 + k] + "-" + n[2 + k..6 + k] + n[6 + k..]
    else n
  }

  /** `formatPhone` */
  function FormatPhone(value: string): (r: string)
  {
    var numbers := Digits(value);
    if |numbers| <= 10 then Punctuate(numbers, 4) else Punctuate(numbers, 5)
  }

  lemma DigitsSkip(p: string, rest: string)
    requires forall i :: 0 <= i < |p| ==> !IsDigit(p[i])
    ensures Digits(p + rest) == Digits(rest)
  {
    DigitsOfNonDigits(p);
    DigitsConcat(p, rest);
  }

  lemma SplitFour(n: string, k: nat)
    requires |n| >= k + 6
    ensures n == n[..2] + n[2..2 + k] + n[2 + k..6 + k] + n[6 + k..]
  {
    assert n[..6 + k] == n[..2] + n[2..2 + k] + n[2 + k..6 + k];
    assert n == n[..6 + k] + n[6 + k..];
  }

  lemma PunctuatedGroupsDigits(a: string, b: string, c: string, d: string)
    requires AllDigits(a) && AllDigits(b) && AllDigits(c) && AllDigits(d)
    ensures Digits("(" + a + ") " + b + "-" + c + d) == a + b + c + d
  {
    var p0 := "(" + a;
    var p1 := p0 + ") ";
    var p2 := p1 + b;
    var p3 := p2 + "-";
    var p4 := p3 + c;
    DigitsSkip("(", a);
    DigitsOfDigits(a);
    assert Digits(p0) == a;
    DigitsConcat(p0, ") ");
    DigitsOfNonDigits(") ");
    assert Digits(p1) == a;
    DigitsConcat(p1, b);
    DigitsOfDigits(b);
    assert Digits(p2) == a + b;
    DigitsConcat(p2, "-");
    DigitsOfNonDigits("-");
    assert Digits(p3) == a + b;
    DigitsConcat(p3, c);
    DigitsOfDigits(c);
    assert Digits(p4) == a + b + c;
    DigitsConcat(p4, d);
    DigitsOfDigits(d);
  }

  lemma PunctuateDigits(n: string, k: nat)
    requires AllDigits(n)
    ensures Digits(Punctuate(n, k)) == n
  {
    if |n| >= k + 6 {
      var a, b, c, d := n[..2], n[2..2 + k], n[2 + k..6 + k], n[6 + k..];
      assert AllDigits(a) && AllDigits(b) && AllDigits(c) && AllDigits(d);
      PunctuatedGroupsDigits(a, b, c, d);
      SplitFour(n, k);
    } else {
      DigitsOfDigits(n);
    }
  }

  lemma PunctuateAddsOnlyPunctuation(n: string, k: nat)
    requires AllDigits(n)
    ensures forall i :: 0 <= i < |Punctuate(n, k)| && !IsDigit(Punctuate(n, k)[i]) ==>
              Punctuate(n, k)[i] in {'(', ')', ' ', '-'}
  {
    if |n| >= k + 6 {
      var a, b, c, d := n[..2], n[2..2 + k], n[2 + k..6 + k], n[6 + k..];
      assert AllDigits(a) && AllDigits(b) && AllDigits(c) && AllDigits(d);
      var p0 := "(" + a;
      var p1 := p0 + ") ";
      var p2 := p1 + b;
      var p3 := p2 + "-";
      var p4 := p3 + c;
      var r := p4 + d;
      assert Punctuate(n, k) == r;
      assert forall i :: 0 <= i < |p0| ==> IsDigit(p0[i]) || p0[i] == '(';
      assert forall i :: 0 <= i < |p1| ==> IsDigit(p1[i]) || p1[i] in {'(', ')', ' '};
      assert forall i :: 0 <= i < |p2| ==> IsDigit(p2[i]) || p2[i] in {'(', ')', ' '};
      assert forall i :: 0 <= i < |p3| ==> IsDigit(p3[i]) || p3[i] in {'(', ')', ' ', '-'};
      assert forall i :: 0 <= i < |p4| ==> IsDigit(p4[i]) || p4[i] in {'(', ')', ' ', '-'};
      assert forall i :: 0 <= i < |r| ==> IsDigit(r[i]) || r[i] in {'(', ')', ' ', '-'};
    }
  }

  /** The formatter keeps the input's digits, in order, and adds only "(",
      ")", " " and "-". */
  lemma FormatPhoneDigits(value: string)
    ensures Digits(FormatPhone(value)) == Digits(value)
    ensures forall i :: 0 <= i < |FormatPhone(value)| && !IsDigit(FormatPhone(value)[i]) ==>
              FormatPhone(value)[i] in {'(', ')', ' ', '-'}
  {
    var n := Digits(value);
    if |n| <= 10 {
      PunctuateDigits(n, 4);
      PunctuateAddsOnlyPunctuation(n, 4);
    } else {
      PunctuateDigits(n, 5);
      PunctuateAddsOnlyPunctuation(n, 5);
    }
  }

  /** The shapes: fewer than 10 digits stay bare, 10 digits give
      "(DD) DDDD-DDDD" and 11 give "(DD) DDDDD-DDDD". */
  lemma FormatPhoneShapes(value: string)
    ensures var n := Digits(value);
            && (|n| < 10 ==> FormatPhone(value) == n)
            && (|n| == 10 ==> FormatPhone(value) == "(" + n[..2] + ") " + n[2..6] + "-" + n[6..10])
            && (|n| == 11 ==> FormatPhone(value) == "(" + n[..2] + ") " + n[2..7] + "-" + n[7..11])
  {
    var n := Digits(value);
    assert |n| == 10 ==> n[10..] == [];
    assert |n| == 11 ==> n[11..] == [];
  }

  /** Formatting twice is formatting once. */
  lemma FormatPhoneIdempotent(value: string)
    ensures FormatPhone(FormatPhone(value)) == FormatPhone(value)
  {
    FormatPhoneDigits(value);
  }

  /** A formatted 10- or 11-digit phone passes the mask and so the phone
      check. */
  lemma FormattedPhoneIsValid(value: string, f: FormData)
    requires HasTenOrElevenDigits(value)
    ensures MatchesMaskedPhone(FormatPhone(value))
    ensures PhoneKey !in ClientErrors(f.(client_phone := FormatPhone(value)))
  {
    var n := Digits(value);
    var r := FormatPhone(value);
    FormatPhoneShapes(value);
    var k := if |n| == 10 then 4 else 5;
    assert r == "(" + n[..2] + ") " + n[2..2 + k] + "-" + n[2 + k..6 + k];
    assert r[5..|r| - 5] == n[2..2 + k];
    assert r[|r| - 4..] == n[2 + k..6 + k];
    FormatPhoneDigits(value);
    assert !AllWhitespace(r) by { assert r[0] == '('; }
  }

  /** The client step's state: its `formData` prop, the `errors` state, and
      the calls made to `onFormDataChange` and `onNext`, in order. */
  class ClientStep {
    const formData: FormData
    var errors: map<string, string>
    var formDataChanges: seq<FormData>
    var nextCalls: nat

    constructor (formData: FormData)
      ensures this.formData == formData
      ensures errors == map[] && formDataChanges == [] && nextCalls == 0
    {
      this.formData := formData;
      errors := map[];
      formDataChanges := [];
      nextCalls := 0;
    }

    /** `handleSubmit`: the errors state becomes the newly built map, whatever
        it held before, and `onNext` is called exactly when that map is empty. */
    method HandleSubmit()
      modifies this
      ensures errors == ClientErrors(formData)
      ensures nextCalls == old(nextCalls) + (if errors == map[] then 1 else 0)
      ensures formDataChanges == old(formDataChanges)
    {
      var newErrors: map<string, string> := map[];
      if Trim(formData.client_name) == "" {
        newErrors := newErrors[NameKey := NameRequired];
      }
      if Trim(formData.client_phone) == "" {
        newErrors := newErrors[PhoneKey := PhoneRequired];
      } else if !MatchesMaskedPhone(formData.client_phone) && !HasTenOrElevenDigits(formData.client_phone) {
        newErrors := newErrors[PhoneKey := PhoneInvalid];
      }
      errors := newErrors;
      if |newErrors| == 0 {
        nextCalls := nextCalls + 1;
      }
    }

    /** `handlePhoneChange`: reports the form data with only the phone
        replaced by its formatted value. */
    method HandlePhoneChange(value: string)
      modifies this
      ensures formDataChanges == old(formDataChanges) + [FormData(formData.client_name, FormatPhone(value), formData.notes)]
      ensures errors == old(errors) && nextCalls == old(nextCalls)
    {
      var formatted := FormatPhone(value);
      formDataChanges := formDataChanges + [formData.(client_phone := formatted)];
    }
  }
}
