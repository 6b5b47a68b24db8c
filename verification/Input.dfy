/** What callers may enter (src/tenant/manager.rs), by code points and UTF-8 lengths. */
module Input {
  import opened Models
  import opened Manager
  import Utf8

  /** An organization or application id: 1 to 128 letters, digits, dots, underscores and hyphens,
      starting with a letter or digit. */
  lemma IdentifierIff(s: string)
    ensures ValidIdentifier(s) <==>
              1 <= |s| <= 128 && LetterOrDigit(s[0])
              && forall i :: 0 <= i < |s| ==> LetterOrDigit(s[i]) || s[i] == '.' || s[i] == '_' || s[i] == '-'
  {
  }

  /** By ASCII code. */
  predicate LetterOrDigit(c: char)
  {
    48 <= c as int <= 57 || 65 <= c as int <= 90 || 97 <= c as int <= 122
  }

  /** The code points with Unicode's White_Space property. */
  predicate WhiteSpace(n: int)
  {
    9 <= n <= 13 || n == 0x20 || n == 0x85 || n == 0xA0 || n == 0x1680 || 0x2000 <= n <= 0x200A
    || n == 0x2028 || n == 0x2029 || n == 0x202F || n == 0x205F || n == 0x3000
  }

  lemma WhiteIff(c: char)
    ensures White(c) <==> WhiteSpace(c as int)
  {
    var others := " \U{85}\U{A0}\U{1680}\U{2028}\U{2029}\U{202F}\U{205F}\U{3000}";
    assert others[0] == ' ' && others[1] as int == 0x85 && others[2] as int == 0xA0 && others[3] as int == 0x1680;
    assert others[4] as int == 0x2028 && others[5] as int == 0x2029 && others[6] as int == 0x202F;
    assert others[7] as int == 0x205F && others[8] as int == 0x3000;
    assert c in others <==> exists i :: 0 <= i < 9 && others[i] == c;
    forall i | 0 <= i < 9 && c as int == others[i] as int ensures c == others[i] { }
  }

  lemma BlankIff(s: string)
    ensures Blank(s) <==> forall c :: c in s ==> WhiteSpace(c as int)
  {
    forall c | c in s ensures White(c) <==> WhiteSpace(c as int) { WhiteIff(c); }
  }

  /** The length in UTF-8, by the ranges of section 3 of RFC 3629. */
  function ByteLength(s: string): nat
  {
    if s == [] then 0 else
      var n := s[0] as int;
      (if n < 0x80 then 1 else if n < 0x800 then 2 else if n < 0x1_0000 then 3 else 4) + ByteLength(s[1..])
  }

  lemma {:induction false} EncodedLength(s: string)
    ensures |Utf8.Encode(s)| == ByteLength(s)
  {
    if s != [] { EncodedLength(s[1..]); }
  }

  lemma DisplayNameIff(s: string)
    ensures ValidDisplayName(s) <==> 1 <= ByteLength(s) <= 1024
  {
    EncodedLength(s);
  }

  predicate Starts(s: string, p: string) { |p| <= |s| && s[..|p|] == p }

  lemma SinkTypeIff(t: CdcSinkType)
    ensures ValidSinkType(t) <==>
              match t
              case Webhook(url) => Starts(url, "http://") || Starts(url, "https://")
              case Nats(subject) => exists c :: c in subject && !WhiteSpace(c as int)
              case Kafka(topic) => exists c :: c in topic && !WhiteSpace(c as int)
  {
    match t {
      case Webhook(_) =>
      case Nats(subject) => BlankIff(subject);
      case Kafka(topic) => BlankIff(topic);
    }
  }
}
