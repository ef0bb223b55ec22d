/** The records read from the input array. Each record is an opaque JSON
    object: the model keeps only its serialized form (the data a QR code
    would carry) and the value of its `posicao` field, the display label. */
module Records {

  /** The value of a record's `posicao` field, as far as the caption cares. */
  datatype Posicao = Undefined | Null | Text(s: string)

  /** One element of the input array. `payload` is the record serialized as
      JSON; it is carried to the page unchanged and never inspected. */
  datatype Record = Record(payload: string, posicao: Posicao)

  /** The caption text produced by interpolating `posicao` into a template
      string: a missing field reads "undefined", a null reads "null", and a
      string is used as it is. */
  function CaptionText(p: Posicao): (t: string)
    ensures p.Text? ==> t == p.s
    ensures p == Undefined ==> t == "undefined"
    ensures p == Null ==> t == "null"
  {
    match p
    case Undefined => "undefined"
    case Null => "null"
    case Text(s) => s
  }

  /** The length JavaScript reports for a string: its number of UTF-16 code
      units, where a character outside the Basic Multilingual Plane takes a
      surrogate pair. */
  function Utf16Length(t: string): (n: nat)
    ensures |t| <= n <= 2 * |t|
    decreases |t|
  {
    if |t| == 0 then 0
    else (if t[0] as int >= 0x1_0000 then 2 else 1) + Utf16Length(t[1..])
  }

  /** A string made only of Basic Multilingual Plane characters has one code
      unit per character. */
  lemma {:induction false} Utf16LengthOfBmp(t: string)
    requires forall i :: 0 <= i < |t| ==> t[i] as int < 0x1_0000
    ensures Utf16Length(t) == |t|
    decreases |t|
  {
    if |t| > 0 {
      Utf16LengthOfBmp(t[1..]);
    }
  }

  /** The code-unit length equals the character count exactly when every
      character lies in the Basic Multilingual Plane: any character outside
      it adds a second unit. */
  lemma {:induction false} Utf16LengthIsCountOnlyForBmp(t: string)
    ensures Utf16Length(t) == |t| <==> forall i :: 0 <= i < |t| ==> t[i] as int < 0x1_0000
    decreases |t|
  {
    if |t| > 0 {
      Utf16LengthIsCountOnlyForBmp(t[1..]);
      assert forall i :: 1 <= i < |t| ==> t[i] == t[1..][i - 1];
    }
  }

  /** The code-unit length of a concatenation is the sum of the lengths. */
  lemma {:induction false} Utf16LengthAppend(a: string, b: string)
    ensures Utf16Length(a + b) == Utf16Length(a) + Utf16Length(b)
    decreases |a|
  {
    if |a| > 0 {
      Utf16LengthAppend(a[1..], b);
      assert (a + b)[1..] == a[1..] + b;
    } else {
      assert a + b == b;
    }
  }
}
