/** `middlewares/miscellaneous.py`: the name the middlewares log an
    incoming update under. A user without a Telegram username is named by a
    transliterated, lower-cased form of their full name, and a user without
    either by their numeric id. */
module Usernames {
  import opened Wrappers
  import opened Builtins
  import opened Utility

  /** The sender of an update. An empty `username` is Python's falsy
      `None` or `""` alike. */
  datatype TgUser = TgUser(id: int, username: string, firstName: string, lastName: Option<string>)

  /** The three update kinds the middlewares see: a message and a callback
      query carry `from_user`, a poll answer carries `user`. Either may be
      absent. */
  datatype Event =
    | MessageEvent(fromUser: Option<TgUser>)
    | CallbackEvent(fromUser: Option<TgUser>)
    | PollAnswerEvent(user: Option<TgUser>)

  /** `User.full_name`: the first name, then a space and the last name when
      there is a non-empty one. */
  function FullName(u: TgUser): string {
    if u.lastName.Some? && u.lastName.value != "" then u.firstName + " " + u.lastName.value else u.firstName
  }

  /** `s.replace(a, b)` for one-character `a` and `b`. */
  function ReplaceChar(s: string, a: char, b: char): (r: string)
    ensures |r| == |s|
    ensures forall i :: 0 <= i < |s| ==> r[i] == (if s[i] == a then b else s[i])
  {
    seq(|s|, i requires 0 <= i < |s| => if s[i] == a then b else s[i])
  }

  /** The shared rule of `m_q_username` and `p_username`: the username
      verbatim; else the full name with spaces made underscores,
      transliterated and lower-cased; else the id in decimal. */
  function NameOf(table: map<char, string>, u: TgUser): string {
    if u.username != "" then u.username
    else if FullName(u) != "" then Lower(Transliterate(table, ReplaceChar(FullName(u), ' ', '_')))
    else IntToString(u.id)
  }

  /** `m_q_username`: reads `event.from_user`, which a poll answer does not
      have and which may be `None`; both raise `AttributeError`. */
  function MqUsername(table: map<char, string>, e: Event): (r: Result<string>)
    ensures r.Raise? <==> e.PollAnswerEvent? || e.fromUser.None?
    ensures r.Raise? ==> r.fault == AttributeError
    ensures r.Ok? ==> r.value == NameOf(table, e.fromUser.value)
  {
    if e.PollAnswerEvent? || e.fromUser.None? then Raise(AttributeError)
    else Ok(NameOf(table, e.fromUser.value))
  }

  /** `p_username`: reads `event.user`, which only a poll answer has. */
  function PUsername(table: map<char, string>, e: Event): (r: Result<string>)
    ensures r.Raise? <==> !e.PollAnswerEvent? || e.user.None?
    ensures r.Raise? ==> r.fault == AttributeError
    ensures r.Ok? ==> r.value == NameOf(table, e.user.value)
  {
    if !e.PollAnswerEvent? || e.user.None? then Raise(AttributeError)
    else Ok(NameOf(table, e.user.value))
  }

  const UnknownUsername := "<unknown_username>"

  /** `collect_username`: the flag picks the rule. */
  function CollectUsername(table: map<char, string>, e: Event, flag: string): (r: Result<string>)
    ensures flag == "m" || flag == "q" ==> r == MqUsername(table, e)
    ensures flag == "p" ==> r == PUsername(table, e)
    ensures flag != "m" && flag != "q" && flag != "p" ==> r == Ok(UnknownUsername)
  {
    if flag == "m" || flag == "q" then MqUsername(table, e)
    else if flag == "p" then PUsername(table, e)
    else Ok(UnknownUsername)
  }

  /** The flag that matches the update's kind always yields the sender's
      name when there is a sender, and the same name whichever kind
      carries it. */
  lemma MatchingFlagNames(table: map<char, string>, u: TgUser)
    ensures CollectUsername(table, MessageEvent(Some(u)), "m") == Ok(NameOf(table, u))
    ensures CollectUsername(table, CallbackEvent(Some(u)), "q") == Ok(NameOf(table, u))
    ensures CollectUsername(table, PollAnswerEvent(Some(u)), "p") == Ok(NameOf(table, u))
    ensures CollectUsername(table, MessageEvent(Some(u)), "p") == Raise(AttributeError)
    ensures CollectUsername(table, PollAnswerEvent(Some(u)), "m") == Raise(AttributeError)
  {
  }

  /** A name made from a full name is already lower case, and it has no
      space when no transliteration introduces one: every space of the full
      name became an underscore. */
  lemma FallbackNameShape(table: map<char, string>, u: TgUser)
    requires u.username == "" && FullName(u) != ""
    ensures Lower(NameOf(table, u)) == NameOf(table, u)
    ensures (forall c :: c in table ==> ' ' !in table[c]) ==> ' ' !in NameOf(table, u)
  {
    var r := NameOf(table, u);
    forall i | 0 <= i < |r| ensures Lower(r)[i] == r[i] {
      LowerCharIdempotent(Transliterate(table, ReplaceChar(FullName(u), ' ', '_'))[i]);
    }
    if forall c :: c in table ==> ' ' !in table[c] {
      var t := ReplaceChar(FullName(u), ' ', '_');
      NoSpaceSurvives(table, t);
      assert ' ' !in r by {
        forall i | 0 <= i < |r| ensures r[i] != ' ' {
          assert Transliterate(table, t)[i] != ' ';
        }
      }
    }
  }

  /** Transliterating a text without spaces, through a table whose images
      have no spaces, gives a text without spaces. */
  lemma {:induction false} NoSpaceSurvives(table: map<char, string>, t: string)
    requires forall c :: c in table ==> ' ' !in table[c]
    requires ' ' !in t
    ensures ' ' !in Transliterate(table, t)
    decreases |t|
  {
    if |t| > 0 {
      NoSpaceSurvives(table, t[..|t| - 1]);
      var c := t[|t| - 1];
      assert c != ' ';
    }
  }

  /** A user with neither username nor full name is named by their id:
      a non-negative id gives its digits alone. */
  lemma IdNameIsDigits(table: map<char, string>, u: TgUser)
    requires u.username == "" && FullName(u) == "" && u.id >= 0
    ensures |NameOf(table, u)| >= 1
    ensures forall i :: 0 <= i < |NameOf(table, u)| ==> IsDigit(NameOf(table, u)[i])
  {
  }
}
