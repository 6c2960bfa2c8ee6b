/**
 * webapp/forms.py: the upload form's file check and the sign-up form's field checks.  A
 * `clean_*` method either returns the cleaned value or raises `ValidationError` with its
 * messages; both are modelled as a `FieldResult`.
 */
module WebappForms {
  import opened Wrappers
  import opened Strings

  datatype FieldResult<+T> = Cleaned(value: T) | Rejected(messages: seq<string>)

  // ---------------------------------------------------------------- KnowledgeBaseForm.clean_file

  const AllowedExtensions: seq<string> := [".txt", ".pdf", ".docx", ".doc"]

  const UnsupportedFormatMessage: string := "Unsupported file format. Only .txt, .pdf, .docx files are allowed."

  /** The text after the last `.`, or the whole name when there is none: the characters at
      the end of the name back to the nearest `.`. */
  function LastDotSegment(name: string): (seg: string)
    ensures forall j :: 0 <= j < |seg| ==> seg[j] != '.'
  {
    if name == [] || name[|name| - 1] == '.' then []
    else LastDotSegment(name[..|name| - 1]) + [name[|name| - 1]]
  }

  /** What precedes the last `.` does not matter. */
  lemma {:induction false} LastDotSegmentAfterDot(a: string, b: string)
    ensures LastDotSegment(a + "." + b) == LastDotSegment(b)
  {
    var t := a + "." + b;
    if b == [] {
      assert t == a + ".";
    } else {
      var b' := b[..|b| - 1];
      assert t[..|t| - 1] == a + "." + b';
      assert t[|t| - 1] == b[|b| - 1];
      LastDotSegmentAfterDot(a, b');
    }
  }

  /** A name without a dot is its own last segment. */
  lemma {:induction false} LastDotSegmentNoDot(b: string)
    requires forall j :: 0 <= j < |b| ==> b[j] != '.'
    ensures LastDotSegment(b) == b
  {
    if b != [] {
      var b' := b[..|b| - 1];
      LastDotSegmentNoDot(b');
      assert b' + [b[|b| - 1]] == b;
    }
  }

  /** `name.split('.')[-1]` is the last segment. */
  lemma {:induction false} SplitLastIsLastDotSegment(name: string)
    ensures var parts := Split(name, '.'); parts[|parts| - 1] == LastDotSegment(name)
    decreases |name|
  {
    var i := IndexOf(name, '.');
    if i == |name| {
      SplitWithoutDot(name);
    } else {
      SplitLastIsLastDotSegment(name[i + 1..]);
      SplitLastAtFirstDot(name, i);
      SegmentAtDot(name, i);
    }
  }

  lemma SplitWithoutDot(name: string)
    requires IndexOf(name, '.') == |name|
    ensures var parts := Split(name, '.'); parts[|parts| - 1] == LastDotSegment(name)
  {
    assert Split(name, '.') == [name];
    LastDotSegmentNoDot(name);
  }

  lemma SplitUnfold(name: string, i: nat)
    requires i == IndexOf(name, '.') && i < |name|
    ensures Split(name, '.') == [name[..i]] + Split(name[i + 1..], '.')
  {
  }

  lemma SegmentAtDot(name: string, i: nat)
    requires i < |name| && name[i] == '.'
    ensures LastDotSegment(name) == LastDotSegment(name[i + 1..])
  {
    var a, b := name[..i], name[i + 1..];
    assert name == a + "." + b;
    LastDotSegmentAfterDot(a, b);
  }

  lemma SplitLastAtFirstDot(name: string, i: nat)
    requires i == IndexOf(name, '.') && i < |name|
    ensures var parts, tail := Split(name, '.'), Split(name[i + 1..], '.');
      parts[|parts| - 1] == tail[|tail| - 1]
  {
    SplitUnfold(name, i);
    var tail := Split(name[i + 1..], '.');
    assert ([name[..i]] + tail)[|tail|] == tail[|tail| - 1];
  }

  /** `file.name.split('.')[-1].lower()`. */
  function ExtensionWord(name: string): string {
    var parts := Split(name, '.');
    Lower(parts[|parts| - 1])
  }

  /** `"." + file.name.split('.')[-1].lower()` is one of the allowed extensions. */
  predicate HasAllowedExtension(name: string) {
    "." + ExtensionWord(name) in AllowedExtensions
  }

  /** `clean_file`: a falsy file (none, or an empty name) and an accepted file are returned
      unchanged; any other file is rejected. */
  function CleanFile(file: Option<string>): FieldResult<Option<string>> {
    if file.None? || file.value == "" then Cleaned(file)
    else if HasAllowedExtension(file.value) then Cleaned(file)
    else Rejected([UnsupportedFormatMessage])
  }

  /** `clean_file` in terms of the last segment: a falsy file passes unchecked, a named file
      passes exactly when the last `.`-segment of its lower-cased name is an allowed word, a
      file that passes is returned as it is, and any other is rejected with the one message. */
  lemma CleanFileRule(file: Option<string>)
    ensures CleanFile(file).Cleaned? <==>
      !Truthy(file) || IsAllowedWord(LastDotSegment(Lower(file.value)))
    ensures CleanFile(file).Cleaned? ==> CleanFile(file).value == file
    ensures CleanFile(file).Rejected? ==> CleanFile(file).messages == [UnsupportedFormatMessage]
  {
    if Truthy(file) {
      AcceptedBySegment(file.value);
    }
  }

  /** The four extension words. */
  predicate IsAllowedWord(w: string) {
    w == "txt" || w == "pdf" || w == "docx" || w == "doc"
  }

  /** `lower` commutes with taking the last segment, since it maps `.` and only `.` to `.`. */
  lemma {:induction false} LowerLastDotSegment(name: string)
    ensures Lower(LastDotSegment(name)) == LastDotSegment(Lower(name))
  {
    if name != [] {
      var init, x := name[..|name| - 1], name[|name| - 1];
      LowerLastDotSegment(init);
      LowerLastStep(name);
      if x != '.' {
        LowerAppend(LastDotSegment(init), [x]);
      }
    }
  }

  lemma LowerLastStep(name: string)
    requires name != []
    ensures var low, x := Lower(name), name[|name| - 1];
      && |low| == |name|
      && low[..|low| - 1] == Lower(name[..|name| - 1])
      && low[|low| - 1] == LowerChar(x)
      && (LowerChar(x) == '.' <==> x == '.')
  {
    var init, x := name[..|name| - 1], name[|name| - 1];
    LowerAppend(init, [x]);
    assert name == init + [x];
  }

  /** The last segment is the dot-free word `w` exactly when the name is `w` itself or ends in
      `.w`. */
  lemma {:induction false} LastDotSegmentIs(t: string, w: string)
    requires forall j :: 0 <= j < |w| ==> w[j] != '.'
    ensures LastDotSegment(t) == w <==> t == w || EndsWith(t, "." + w)
  {
    if t == [] {
    } else if t[|t| - 1] == '.' {
      if w != [] {
        assert ("." + w)[|w|] == w[|w| - 1];
      } else {
        assert t[|t| - 1..] == ".";
      }
    } else if w == [] {
      assert !EndsWith(t, ".");
    } else {
      var t', x := t[..|t| - 1], t[|t| - 1];
      var w', y := w[..|w| - 1], w[|w| - 1];
      LastDotSegmentIs(t', w');
      assert t == t' + [x] && w == w' + [y];
      assert "." + w == ("." + w') + [y];
      AppendInjective(LastDotSegment(t'), x, w', y);
      AppendInjective(t', x, w', y);
      EndsWithStep(t', x, "." + w', y);
    }
  }

  lemma AppendInjective(a: string, x: char, b: string, y: char)
    ensures a + [x] == b + [y] <==> a == b && x == y
  {
    if a + [x] == b + [y] {
      assert (a + [x])[..|a|] == a && (b + [y])[..|b|] == b;
    }
  }

  lemma EndsWithStep(t: string, x: char, v: string, y: char)
    ensures EndsWith(t + [x], v + [y]) <==> EndsWith(t, v) && x == y
  {
    var t1, v1 := t + [x], v + [y];
    if EndsWith(t, v) && x == y {
      assert t1[|t1| - |v1|..] == t[|t| - |v|..] + [x];
    }
    if EndsWith(t1, v1) {
      assert t[|t| - |v|..] == t1[|t1| - |v1|..|t1| - 1];
      assert v1[..|v|] == v;
    }
  }

  /** The rule in terms of the last segment of the lower-cased name. */
  lemma AcceptedBySegment(name: string)
    ensures HasAllowedExtension(name) <==> IsAllowedWord(LastDotSegment(Lower(name)))
  {
    ExtensionWordIsSegment(name);
    DottedWord(ExtensionWord(name));
  }

  lemma ExtensionWordIsSegment(name: string)
    ensures ExtensionWord(name) == LastDotSegment(Lower(name))
  {
    ExtensionWordOfSegment(name);
    LowerLastDotSegment(name);
  }

  lemma ExtensionWordOfSegment(name: string)
    ensures ExtensionWord(name) == Lower(LastDotSegment(name))
  {
    SplitLastIsLastDotSegment(name);
  }

  lemma DottedWord(w: string)
    ensures "." + w in AllowedExtensions <==> IsAllowedWord(w)
  {
    var d := "." + w;
    assert d[1..] == w;
    if d == ".txt" {
      assert ".txt"[1..] == "txt";
    } else if d == ".pdf" {
      assert ".pdf"[1..] == "pdf";
    } else if d == ".docx" {
      assert ".docx"[1..] == "docx";
    } else if d == ".doc" {
      assert ".doc"[1..] == "doc";
    }
  }

  /** The rule as a statement about the whole name: a name is accepted exactly when,
      lower-cased, it ends in `.txt`, `.pdf`, `.docx` or `.doc`, or is one of the bare words
      `txt`, `pdf`, `docx`, `doc`. */
  lemma AcceptedNames(name: string)
    ensures HasAllowedExtension(name) <==>
      exists w :: IsAllowedWord(w) && (Lower(name) == w || EndsWith(Lower(name), "." + w))
  {
    AcceptedBySegment(name);
    var low := Lower(name);
    var seg := LastDotSegment(low);
    if HasAllowedExtension(name) {
      NoDotInWord(seg);
      LastDotSegmentIs(low, seg);
    }
    forall w | IsAllowedWord(w) && (low == w || EndsWith(low, "." + w))
      ensures HasAllowedExtension(name)
    {
      NoDotInWord(w);
      LastDotSegmentIs(low, w);
    }
  }

  lemma NoDotInWord(w: string)
    requires IsAllowedWord(w)
    ensures forall j :: 0 <= j < |w| ==> w[j] != '.'
  {
  }

  /** A name `stem.seg` is judged on its last segment `seg` alone. */
  lemma JudgedOnLastSegment(stem: string, seg: string)
    requires forall j :: 0 <= j < |seg| ==> seg[j] != '.'
    ensures HasAllowedExtension(stem + "." + seg) <==> IsAllowedWord(Lower(seg))
  {
    SegmentAfterDot(stem, seg);
    DottedWord(Lower(seg));
  }

  lemma SegmentAfterDot(stem: string, seg: string)
    requires forall j :: 0 <= j < |seg| ==> seg[j] != '.'
    ensures ExtensionWord(stem + "." + seg) == Lower(seg)
  {
    ExtensionWordOfSegment(stem + "." + seg);
    LastDotSegmentAfterDot(stem, seg);
    LastDotSegmentNoDot(seg);
  }

  /** A name without a dot is judged as a whole. */
  lemma JudgedAsWhole(name: string)
    requires forall j :: 0 <= j < |name| ==> name[j] != '.'
    ensures HasAllowedExtension(name) <==> IsAllowedWord(Lower(name))
  {
    WholeNameSegment(name);
    DottedWord(Lower(name));
  }

  lemma WholeNameSegment(name: string)
    requires forall j :: 0 <= j < |name| ==> name[j] != '.'
    ensures ExtensionWord(name) == Lower(name)
  {
    ExtensionWordOfSegment(name);
    LastDotSegmentNoDot(name);
  }

  /** `JudgedOnLastSegment` for a name given whole. */
  lemma JudgedOnSegmentOf(name: string, stem: string, seg: string)
    requires name == stem + "." + seg
    requires forall j :: 0 <= j < |seg| ==> seg[j] != '.'
    ensures HasAllowedExtension(name) <==> IsAllowedWord(Lower(seg))
  {
    JudgedOnLastSegment(stem, seg);
  }

  /** A non-empty name is returned unchanged exactly when its extension is allowed, and
      rejected with the one message otherwise. */
  lemma CleanFileOfName(name: string)
    requires name != ""
    ensures HasAllowedExtension(name) ==> CleanFile(Some(name)) == Cleaned(Some(name))
    ensures !HasAllowedExtension(name) ==> CleanFile(Some(name)) == Rejected([UnsupportedFormatMessage])
  {
  }

  /** The check is case-insensitive: "A.PDF" is accepted. */
  lemma UpperCaseAccepted()
    ensures CleanFile(Some("A.PDF")) == Cleaned(Some("A.PDF"))
  {
    JudgedOnSegmentOf("A.PDF", "A", "PDF");
    LowerPdf("PDF");
    CleanFileOfName("A.PDF");
  }

  lemma LowerPdf(s: string)
    requires s == "PDF"
    ensures Lower(s) == "pdf"
  {
    var l := Lower(s);
    assert |l| == 3 && l[0] == 'p' && l[1] == 'd' && l[2] == 'f';
  }

  /** A dotless name is judged as a whole: the bare "txt" is accepted. */
  lemma BareWordAccepted()
    ensures CleanFile(Some("txt")) == Cleaned(Some("txt"))
  {
    JudgedAsWhole("txt");
    LowerOfLowerCase("txt");
    CleanFileOfName("txt");
  }

  /** `.doc` is accepted. */
  lemma DocAccepted()
    ensures CleanFile(Some("notes.doc")) == Cleaned(Some("notes.doc"))
  {
    DocNamesAccepted("notes");
    assert "notes" + "." + "doc" == "notes.doc";
    CleanFileOfName("notes.doc");
  }

  /** Every name ending in `.doc` passes. */
  lemma DocNamesAccepted(stem: string)
    ensures HasAllowedExtension(stem + "." + "doc")
  {
    JudgedOnLastSegment(stem, "doc");
    LowerOfLowerCase("doc");
  }

  /** An extension outside the list is rejected. */
  lemma MarkdownRejected()
    ensures CleanFile(Some("notes.md")) == Rejected([UnsupportedFormatMessage])
  {
    JudgedOnSegmentOf("notes.md", "notes", "md");
    LowerOfLowerCase("md");
    CleanFileOfName("notes.md");
  }

  // ---------------------------------------------------------------- CustomUserCreationForm

  const DuplicateEmailMessage: string := "A user with that email address already exists."
  const DuplicateUsernameMessage: string := "A user with that username already exists."
  const RequiredMessage: string := "This field is required."
  const MismatchMessage: string := "The two password fields didn't match."

  /** Python truthiness of an optional string. */
  predicate Truthy(s: Option<string>) {
    s.Some? && s.value != ""
  }

  /** `clean_email`: the address must not belong to an existing user (`existing`). */
  function CleanEmail(email: string, existing: set<string>): (r: FieldResult<string>)
    ensures r.Cleaned? <==> email !in existing
    ensures r.Cleaned? ==> r.value == email
    ensures r.Rejected? ==> r.messages == [DuplicateEmailMessage]
  {
    if email in existing then Rejected([DuplicateEmailMessage]) else Cleaned(email)
  }

  /** `clean_username`: the name must not belong to an existing user. */
  function CleanUsername(username: string, existing: set<string>): (r: FieldResult<string>)
    ensures r.Cleaned? <==> username !in existing
    ensures r.Cleaned? ==> r.value == username
    ensures r.Rejected? ==> r.messages == [DuplicateUsernameMessage]
  {
    if username in existing then Rejected([DuplicateUsernameMessage]) else Cleaned(username)
  }

  /** `clean_password`: an empty or missing password is required; otherwise the messages of
      the password validators (`validatorMessages`, empty when they accept) reject it. */
  function CleanPassword(password: Option<string>, validatorMessages: seq<string>): (r: FieldResult<string>)
    ensures r == Rejected([RequiredMessage]) <==> !Truthy(password) || validatorMessages == [RequiredMessage]
    ensures r.Cleaned? <==> Truthy(password) && validatorMessages == []
    ensures r.Cleaned? ==> Some(r.value) == password
  {
    if !Truthy(password) then Rejected([RequiredMessage])
    else if validatorMessages != [] then Rejected(validatorMessages)
    else Cleaned(password.value)
  }

  /** `clean_password2`: rejected exactly when both passwords are given and differ; otherwise
      the confirmation is returned as it is.  `password` is the already cleaned first field,
      `None` when its own check failed. */
  function CleanPassword2(password: Option<string>, password2: Option<string>): (r: FieldResult<Option<string>>)
    ensures r.Rejected? <==> Truthy(password) && Truthy(password2) && password != password2
    ensures r.Rejected? ==> r.messages == [MismatchMessage]
    ensures r.Cleaned? ==> r.value == password2
  {
    if Truthy(password) && Truthy(password2) && password != password2 then Rejected([MismatchMessage])
    else Cleaned(password2)
  }

  /** A sign-up whose two password checks pass either confirmed the password it cleaned, or
      left the confirmation empty. */
  lemma PasswordsAgree(password: Option<string>, validatorMessages: seq<string>, password2: Option<string>)
    requires CleanPassword(password, validatorMessages).Cleaned?
    requires CleanPassword2(password, password2).Cleaned?
    ensures password2 == password || !Truthy(password2)
  {
  }
}
