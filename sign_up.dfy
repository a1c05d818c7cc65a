/**
 * The sign-up form: the role picker hands back either a comma-separated
 * string (browser autofill) or an array of roles, and the register request
 * sends the email, the password and the role list.
 */
module SignUp {

  /** What `event.target.value` holds when the role picker changes. */
  datatype RoleValue = Text(text: string) | Picked(roles: seq<string>)

  /**
   * `s.split(sep)` for a one-character separator: the pieces between the
   * separators, so n separators give n + 1 pieces and "" gives [""].
   */
  function Split(s: string, sep: char): (pieces: seq<string>)
    ensures |pieces| >= 1
    ensures forall k :: 0 <= k < |pieces| ==> sep !in pieces[k]
  {
    if s == [] then [""]
    else
      var rest := Split(s[1..], sep);
      if s[0] == sep then [""] + rest
      else [[s[0]] + rest[0]] + rest[1..]
  }

  /** `pieces.join(sep)`. */
  function Join(pieces: seq<string>, sep: char): string
  {
    if |pieces| == 0 then ""
    else if |pieces| == 1 then pieces[0]
    else pieces[0] + [sep] + Join(pieces[1..], sep)
  }

  /** `handleRoleChange`: split a string at every comma, keep an array as it is. */
  function RolesFrom(value: RoleValue): (roles: seq<string>)
    ensures value.Picked? ==> roles == value.roles
    ensures value.Text? ==> |roles| >= 1 && forall k :: 0 <= k < |roles| ==> ',' !in roles[k]
  {
    match value
    case Text(text) => Split(text, ',')
    case Picked(roles) => roles
  }

  /** Joining the split pieces with the separator gives the string back. */
  lemma {:induction false} JoinSplit(s: string, sep: char)
    ensures Join(Split(s, sep), sep) == s
  {
    if s != [] {
      var rest := Split(s[1..], sep);
      JoinSplit(s[1..], sep);
      if s[0] == sep {
        assert Split(s, sep) == [""] + rest;
        assert ([""] + rest)[1..] == rest;
        assert [s[0]] + s[1..] == s;
      } else {
        var pieces := Split(s, sep);
        assert pieces == [[s[0]] + rest[0]] + rest[1..];
        if |rest| == 1 {
          assert Join(pieces, sep) == [s[0]] + rest[0];
        } else {
          assert pieces[1..] == rest[1..];
          assert Join(rest, sep) == rest[0] + [sep] + Join(rest[1..], sep);
        }
        assert [s[0]] + s[1..] == s;
      }
    }
  }

  /** There is one more piece than there are separators. */
  lemma {:induction false} SplitCount(s: string, sep: char)
    ensures |Split(s, sep)| == multiset(s)[sep] + 1
  {
    if s != [] {
      SplitCount(s[1..], sep);
      assert s == [s[0]] + s[1..];
      assert multiset(s) == multiset{s[0]} + multiset(s[1..]);
    }
  }

  /**
   * Splitting a join gives the pieces back, provided there is at least one
   * piece and no piece contains the separator.
   */
  lemma {:induction false} SplitJoin(pieces: seq<string>, sep: char)
    requires |pieces| >= 1
    requires forall k :: 0 <= k < |pieces| ==> sep !in pieces[k]
    ensures Split(Join(pieces, sep), sep) == pieces
  {
    if |pieces| == 1 {
      SplitPlain(pieces[0], sep);
    } else {
      SplitJoin(pieces[1..], sep);
      SplitAfterPlain(pieces[0], Join(pieces[1..], sep), sep);
      assert Join(pieces, sep) == pieces[0] + ([sep] + Join(pieces[1..], sep));
      assert [pieces[0]] + pieces[1..] == pieces;
    }
  }

  /** A string without the separator splits into itself. */
  lemma {:induction false} SplitPlain(s: string, sep: char)
    requires sep !in s
    ensures Split(s, sep) == [s]
  {
    if s != [] {
      SplitPlain(s[1..], sep);
      assert [s[0]] + s[1..] == s;
    }
  }

  /** A separator-free prefix becomes the first piece; the rest splits on its own. */
  lemma {:induction false} SplitAfterPlain(a: string, rest: string, sep: char)
    requires sep !in a
    ensures Split(a + ([sep] + rest), sep) == [a] + Split(rest, sep)
  {
    if a == [] {
      assert a + ([sep] + rest) == [sep] + rest;
      assert ([sep] + rest)[1..] == rest;
    } else {
      SplitAfterPlain(a[1..], rest, sep);
      assert (a + ([sep] + rest))[1..] == a[1..] + ([sep] + rest);
      assert [a[0]] + a[1..] == a;
    }
  }

  /** The register request body. */
  datatype Registration = Registration(email: string, password: string, role: seq<string>)

  /** `handleSubmit`'s `user`: the form's email and password and the current roles. */
  function RegisterPayload(email: string, password: string, role: seq<string>): (user: Registration)
    ensures user.email == email && user.password == password && user.role == role
  {
    Registration(email, password, role)
  }

  /**
   * A typed role string reaches the server as pieces that join back into
   * the typed text, one more piece than the text has commas; a picked role
   * array reaches it unchanged.
   */
  lemma RegisteredRoles(email: string, password: string, value: RoleValue)
    ensures var sent := RegisterPayload(email, password, RolesFrom(value)).role;
      && (value.Picked? ==> sent == value.roles)
      && (value.Text? ==> Join(sent, ',') == value.text && |sent| == multiset(value.text)[','] + 1)
  {
    if value.Text? {
      JoinSplit(value.text, ',');
      SplitCount(value.text, ',');
    }
  }
}
