/** Signing in (`getUserInfo`): a blank answer plays as the guest; any other
    answer is trimmed and names the player, whose record is loaded or, for a
    new name, created with zero totals and the FIRST_QUIZ achievement. The
    users table of the program is a plain object, which also answers for the
    names of the members every object inherits; `GreetingAsWritten` models that
    lookup and `Greeting` the own-key lookup (`Known`) the rest of the model uses. */
module Identity {

  import opened Wrappers
  import opened JsText
  import opened QuizData
  import opened Achievements
  import opened Progress

  const FirstQuiz: string := "FIRST_QUIZ"

  /** The record a new name starts with. The welcome grant is made for the
      current player, so a player who types the reserved name "guest" gets a
      record but no grant. */
  function Welcome(name: string, now: Timestamp): (u: UserRecord)
    ensures RecordOk(u) && u.name == name && u.quizHistory == []
    ensures u.totalScore == 0 && u.totalQuizzes == 0 && u.averageScore == 0.0
    ensures forall k :: HasKey(u.achievements, k) <==> k == FirstQuiz && name != Guest
  {
    var start := NewUser(name, now);
    if name == Guest then start else start.(achievements := Grant(start.achievements, FirstQuiz, now))
  }

  /** Whether a user record is found for a name: own keys only. */
  predicate Known(users: map<string, UserRecord>, name: string) {
    name in users
  }

  /** Who is playing after sign-in, and the users table afterwards. */
  datatype SignedIn = SignedIn(user: string, users: map<string, UserRecord>)

  /** `getUserInfo` for the line the player typed. */
  function SignIn(users: map<string, UserRecord>, input: string, now: Timestamp): (r: SignedIn)
    ensures AllWhitespace(input) ==> r.user == Guest && r.users == users
    ensures !AllWhitespace(input) ==> r.user == Trim(input) && r.user in r.users
    ensures r.users.Keys == if AllWhitespace(input) then users.Keys else users.Keys + {Trim(input)}
    ensures forall n :: n in users && n != r.user ==> r.users[n] == users[n]
  {
    SignInAs(users, Trim(input), now)
  }

  /** Signing in under an already trimmed name; the empty name is the guest. */
  function SignInAs(users: map<string, UserRecord>, name: string, now: Timestamp): (r: SignedIn)
    ensures name == [] ==> r.user == Guest && r.users == users
    ensures name != [] ==> r.user == name && r.users.Keys == users.Keys + {name}
    ensures forall n :: n in users && n != r.user ==> r.users[n] == users[n]
    ensures UsersOk(users) ==> UsersOk(r.users)
  {
    if name == [] then SignedIn(Guest, users)
    else if Known(users, name) then
      var u := users[name].(lastActive := now);
      assert RecordOk(u) <==> RecordOk(users[name]);
      SignedIn(name, users[name := u])
    else SignedIn(name, users[name := Welcome(name, now)])
  }

  /** The records kept in the table are consistent and filed under their own
      names. */
  predicate UsersOk(users: map<string, UserRecord>) {
    forall n :: n in users ==> RecordOk(users[n]) && users[n].name == n
  }

  /** A new name gets a fresh record: zero totals, zero average, no history,
      and FIRST_QUIZ as its only achievement unless the name is "guest". */
  lemma NewPlayer(users: map<string, UserRecord>, input: string, now: Timestamp)
    requires !AllWhitespace(input) && Trim(input) !in users
    ensures var u := SignIn(users, input, now).users[Trim(input)];
      && u.totalScore == 0 && u.totalQuizzes == 0 && u.averageScore == 0.0 && u.quizHistory == []
      && (Trim(input) != Guest <==> HasKey(u.achievements, FirstQuiz))
      && (forall k :: HasKey(u.achievements, k) ==> k == FirstQuiz)
  {
  }

  /** A returning player's record is kept as it was, apart from the time of
      last activity. */
  lemma ReturningPlayer(users: map<string, UserRecord>, input: string, now: Timestamp)
    requires !AllWhitespace(input) && Trim(input) in users
    ensures SignIn(users, input, now).users == users[Trim(input) := users[Trim(input)].(lastActive := now)]
  {
  }

  /** Blanks around a name are ignored: padded and bare names sign in as the
      same player with the same effect. */
  lemma SignInIgnoresPadding(users: map<string, UserRecord>, front: string, name: string, back: string, now: Timestamp)
    requires AllWhitespace(front) && AllWhitespace(back)
    requires name != [] && !IsWhitespace(name[0]) && !IsWhitespace(name[|name| - 1])
    ensures SignIn(users, front + name + back, now) == SignIn(users, name, now)
  {
    TrimRemovesPadding(front, name, back);
    var none: string := [];
    TrimRemovesPadding(none, name, none);
    assert none + name + none == name;
    assert Trim(front + name + back) == Trim(name);
  }

  /** Signing in twice with the same name creates the record once: the second
      time only the time of last activity changes. */
  lemma SignInTwice(users: map<string, UserRecord>, input: string, t1: Timestamp, t2: Timestamp)
    requires !AllWhitespace(input)
    ensures var first := SignIn(users, input, t1);
      SignIn(first.users, input, t2).users == first.users[first.user := first.users[first.user].(lastActive := t2)]
  {
  }

  // ------------------------------------------------ lookup on a plain object

  /** The members every plain object inherits: indexing the users table with
      one of these names yields the inherited member rather than nothing. */
  const InheritedNames: set<string> := {
    "constructor", "hasOwnProperty", "isPrototypeOf", "propertyIsEnumerable",
    "toLocaleString", "toString", "valueOf", "__proto__",
    "__defineGetter__", "__defineSetter__", "__lookupGetter__", "__lookupSetter__"
  }

  /** How `getUserInfo` treats a non-blank name. */
  datatype SignInOutcome =
    | Created   // a new record, with the welcome grant
    | Returned  // an existing record, whose totals are printed
    | Crashed   // printing the totals of something that is not a record throws

  /** The code as written: `!this.users[name]` is false for an own record and
      for an inherited member alike, and for an inherited member the welcome
      back line reads `averageScore` of a function or prototype object, which
      is undefined, and calls `toFixed` on it. */
  function GreetingAsWritten(users: map<string, UserRecord>, name: string): (g: SignInOutcome)
    ensures g == Created <==> name !in users && name !in InheritedNames
    ensures g == Crashed ==> !Known(users, name)
  {
    if name in users then Returned
    else if name in InheritedNames then Crashed
    else Created
  }

  /** The evidently intended behaviour: only an own record counts as known. */
  function Greeting(users: map<string, UserRecord>, name: string): (g: SignInOutcome)
    ensures g != Crashed
    ensures g == Returned <==> Known(users, name)
  {
    if Known(users, name) then Returned else Created
  }

  /** A first-time player called "toString" is greeted as a returning player
      and the sign-in throws before any record is created. */
  lemma InheritedNameCrashes()
    ensures GreetingAsWritten(map[], "toString") == Crashed
    ensures Greeting(map[], "toString") == Created
  {
  }

  /** Apart from the inherited names, the code as written and the own-key
      lookup agree. */
  lemma GreetingsAgreeElsewhere(users: map<string, UserRecord>, name: string)
    requires name !in InheritedNames
    ensures GreetingAsWritten(users, name) == Greeting(users, name)
  {
  }

  /** With the own-key lookup, a player called "toString" signs in like any
      other new player. */
  lemma InheritedNameSignsIn(now: Timestamp)
    ensures var r := SignIn(map[], "toString", now);
      r.user == "toString" && r.users["toString"] == Welcome("toString", now)
  {
    var name := "toString";
    assert !IsWhitespace(name[0]) && !IsWhitespace(name[|name| - 1]);
    SignInIgnoresPadding(map[], [], name, [], now);
    TrimRemovesPadding([], name, []);
    assert [] + name + [] == name;
  }
}
