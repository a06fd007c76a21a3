/** Credentials of remote storages: masked when they leave, put back when an edited form returns. */
module RemoteSecrets {
  import SqlLike
  import Translate

  const SECRET_MARKER := "••••••••"

  type Options = map<string, string>

  datatype Parsed = Readable(options: Options) | Unreadable

  /** A stored row: the decoded options and the names of those that hold credentials. */
  datatype Remote = Remote(parsed: Parsed, secretFields: seq<string>)

  datatype Existing = NoRow | Row(remote: Remote)

  function ToLower(s: string): string {
    seq(|s|, i requires 0 <= i < |s| => SqlLike.Lower(s[i]))
  }

  function Norm(key: string): string {
    ToLower(Translate.TrimSpace(key))
  }

  // ----- masking

  predicate IsSecret(key: string, secretFields: seq<string>) {
    exists i :: 0 <= i < |secretFields| && ToLower(secretFields[i]) == ToLower(key)
  }

  function Masked(options: Options, secretFields: seq<string>): Options {
    map k | k in options :: if IsSecret(k, secretFields) then SECRET_MARKER else options[k]
  }

  method MaskOptions(remote: Remote) returns (masked: Options, ok: bool)
    ensures ok == remote.parsed.Readable?
    ensures ok ==> masked == Masked(remote.parsed.options, remote.secretFields)
  {
    if remote.parsed.Unreadable? {
      return map[], false;
    }
    var opts := remote.parsed.options;
    var secrets: set<string> := {};
    for n := 0 to |remote.secretFields|
      invariant secrets == set i | 0 <= i < n :: ToLower(remote.secretFields[i])
    {
      secrets := secrets + {ToLower(remote.secretFields[n])};
    }
    masked := map[];
    var rest := opts.Keys;
    while rest != {}
      invariant rest <= opts.Keys
      invariant masked == map k | k in opts && k !in rest :: Masked(opts, remote.secretFields)[k]
    {
      var k :| k in rest;
      rest := rest - {k};
      if ToLower(k) in secrets {
        masked := masked[k := SECRET_MARKER];
      } else {
        masked := masked[k := opts[k]];
      }
    }
    ok := true;
  }

  // ----- merging an edited form into the row

  /** `incoming` holds the request under trimmed lower-case keys. When several keys of the request fall
      together, any one of their values may survive. */
  ghost predicate Normalized(request: Options, incoming: Options) {
    && (forall k :: k in request ==> Norm(k) in incoming)
    && (forall n :: n in incoming ==> exists k :: k in request && Norm(k) == n && incoming[n] == request[k])
  }

  /** The row holds a value for a secret named by `key`. */
  predicate Held(key: string, secretFields: seq<string>, prior: Options) {
    (exists i :: 0 <= i < |secretFields| && ToLower(secretFields[i]) == key) && key in prior && prior[key] != ""
  }

  /** The form left the value alone. */
  predicate Untouched(value: string) {
    value == SECRET_MARKER || value == ""
  }

  function Merged(incoming: Options, secretFields: seq<string>, prior: Options): Options {
    map k | k in incoming :: if Untouched(incoming[k]) && Held(k, secretFields, prior) then prior[k] else incoming[k]
  }

  function OldOptions(existing: Existing): Options {
    if existing.Row? && existing.remote.parsed.Readable? then existing.remote.parsed.options else map[]
  }

  function OldSecrets(existing: Existing): seq<string> {
    if existing.Row? then existing.remote.secretFields else []
  }

  method NormalizeKeys(request: Options) returns (incoming: Options)
    ensures Normalized(request, incoming)
  {
    incoming := map[];
    var rest := request.Keys;
    while rest != {}
      invariant rest <= request.Keys
      invariant forall k :: k in request && k !in rest ==> Norm(k) in incoming
      invariant forall n :: n in incoming ==> exists k :: k in request && Norm(k) == n && incoming[n] == request[k]
    {
      var k :| k in rest;
      rest := rest - {k};
      incoming := incoming[Norm(k) := request[k]];
    }
  }

  /** One turn of the loop over the secrets. */
  function Restored(incoming: Options, key: string, prior: Options): Options {
    if key in incoming && Untouched(incoming[key]) && key in prior && prior[key] != ""
    then incoming[key := prior[key]] else incoming
  }

  lemma HeldOneMore(k: string, secretFields: seq<string>, prior: Options, i: nat)
    requires i < |secretFields|
    ensures Held(k, secretFields[..i + 1], prior)
       <==> Held(k, secretFields[..i], prior) || (k == ToLower(secretFields[i]) && k in prior && prior[k] != "")
  {
    var before, more := secretFields[..i], secretFields[..i + 1];
    assert more[i] == secretFields[i] && forall j :: 0 <= j < i ==> more[j] == before[j];
  }

  /** One key of the merge, with `held` before and after one more secret is taken in. */
  lemma RestoredAt(before: Options, after: Options, key: string, prior: Options, k: string, value: string, held: bool)
    requires k in before && k in after
    requires held ==> k in prior && prior[k] != ""
    requires before[k] == if Untouched(value) && held then prior[k] else value
    requires after[k] == if Untouched(value) && (held || (k == key && k in prior && prior[k] != "")) then prior[k] else value
    ensures Restored(before, key, prior)[k] == after[k]
  {
  }

  lemma MergedOneMore(incoming: Options, secretFields: seq<string>, prior: Options, i: nat)
    requires i < |secretFields|
    ensures Merged(incoming, secretFields[..i + 1], prior)
         == Restored(Merged(incoming, secretFields[..i], prior), ToLower(secretFields[i]), prior)
  {
    var after, before := Merged(incoming, secretFields[..i + 1], prior), Merged(incoming, secretFields[..i], prior);
    var key := ToLower(secretFields[i]);
    forall k | k in incoming ensures after[k] == Restored(before, key, prior)[k] {
      HeldOneMore(k, secretFields, prior, i);
      RestoredAt(before, after, key, prior, k, incoming[k], Held(k, secretFields[..i], prior));
    }
    assert after.Keys == incoming.Keys == Restored(before, key, prior).Keys;
  }

  method BuildOptions(request: Options, existing: Existing) returns (stored: Options)
    ensures exists incoming :: Normalized(request, incoming)
                            && stored == Merged(incoming, OldSecrets(existing), OldOptions(existing))
  {
    var incoming := NormalizeKeys(request);
    ghost var sent := incoming;
    var oldSecrets: seq<string>, oldOptions: Options := [], map[];
    if existing.Row? {
      oldSecrets := existing.remote.secretFields;
      if existing.remote.parsed.Readable? {
        oldOptions := existing.remote.parsed.options;
      }
    }
    for i := 0 to |oldSecrets|
      invariant incoming == Merged(sent, oldSecrets[..i], oldOptions)
    {
      MergedOneMore(sent, oldSecrets, oldOptions, i);
      var key := ToLower(oldSecrets[i]);
      if key in incoming && (incoming[key] == SECRET_MARKER || incoming[key] == "") {
        if key in oldOptions && oldOptions[key] != "" {
          incoming := incoming[key := oldOptions[key]];
        }
      }
    }
    assert oldSecrets[..|oldSecrets|] == oldSecrets;
    stored := incoming;
  }

  // ----- keys

  lemma LowerTwice(s: string)
    ensures ToLower(ToLower(s)) == ToLower(s)
  {
  }

  lemma LowerKeepsOuter(s: string)
    requires Translate.NoOuterSpace(s)
    ensures Translate.NoOuterSpace(ToLower(s))
  {
  }

  lemma NormIsNormal(key: string)
    ensures Norm(Norm(key)) == Norm(key) && ToLower(Norm(key)) == Norm(key)
  {
    var t := Translate.TrimSpace(key);
    Translate.TrimShape(key);
    LowerKeepsOuter(t);
    Translate.TrimShape(ToLower(t));
    LowerTwice(t);
  }

  ghost predicate NormalKeys(options: Options) {
    forall k :: k in options ==> Norm(k) == k
  }

  lemma NormalizedKeysAreNormal(request: Options, incoming: Options)
    requires Normalized(request, incoming)
    ensures NormalKeys(incoming)
  {
    forall n | n in incoming ensures Norm(n) == n {
      var k :| k in request && Norm(k) == n && incoming[n] == request[k];
      NormIsNormal(k);
    }
  }

  /** With keys in normal form already, normalising changes nothing. */
  lemma NormalizedIsRequest(request: Options, incoming: Options)
    requires Normalized(request, incoming) && NormalKeys(request)
    ensures incoming == request
  {
    forall k | k in request ensures k in incoming && incoming[k] == request[k] {
      assert Norm(k) in incoming;
    }
  }

  // ----- the round trip

  ghost predicate NoEmptySecret(options: Options, secretFields: seq<string>) {
    forall k :: k in options && IsSecret(k, secretFields) ==> options[k] != ""
  }

  lemma UnmaskedKey(prior: Options, secretFields: seq<string>, k: string)
    requires k in prior && Norm(k) == k
    ensures Merged(Masked(prior, secretFields), secretFields, prior)[k] == prior[k]
       <==> (IsSecret(k, secretFields) ==> prior[k] != "")
  {
    NormIsNormal(k);
    assert ToLower(k) == k;
    if IsSecret(k, secretFields) && prior[k] != "" {
      assert Held(k, secretFields, prior);
    }
  }

  lemma RoundTripOfNormalKeys(prior: Options, secretFields: seq<string>)
    requires NormalKeys(prior)
    ensures Merged(Masked(prior, secretFields), secretFields, prior) == prior <==> NoEmptySecret(prior, secretFields)
  {
    var result := Merged(Masked(prior, secretFields), secretFields, prior);
    forall k | k in prior ensures result[k] == prior[k] <==> (IsSecret(k, secretFields) ==> prior[k] != "") {
      UnmaskedKey(prior, secretFields, k);
    }
    if NoEmptySecret(prior, secretFields) {
      assert forall k :: k in result ==> result[k] == prior[k];
    }
  }

  lemma RoundTripNeedsNormalKeys(prior: Options, secretFields: seq<string>, incoming: Options)
    requires NormalKeys(incoming) && !NormalKeys(prior)
    ensures Merged(incoming, secretFields, prior) != prior
  {
    var k :| k in prior && Norm(k) != k;
    assert k !in Merged(incoming, secretFields, prior);
  }

  /** Sending the masked options back unchanged restores the stored options exactly when the stored keys are
      trimmed and lower-case and no stored secret is empty. */
  lemma RoundTripIff(prior: Options, secretFields: seq<string>, incoming: Options)
    requires Normalized(Masked(prior, secretFields), incoming)
    ensures Merged(incoming, secretFields, prior) == prior <==> NormalKeys(prior) && NoEmptySecret(prior, secretFields)
  {
    NormalizedKeysAreNormal(Masked(prior, secretFields), incoming);
    if NormalKeys(prior) {
      NormalizedIsRequest(Masked(prior, secretFields), incoming);
      RoundTripOfNormalKeys(prior, secretFields);
    } else {
      RoundTripNeedsNormalKeys(prior, secretFields, incoming);
    }
  }

  /** The edit form opened and saved without a change. */
  method EditUnchanged(remote: Remote) returns (stored: Options, ok: bool)
    ensures ok == remote.parsed.Readable?
    ensures ok ==> (stored == remote.parsed.options
                    <==> NormalKeys(remote.parsed.options) && NoEmptySecret(remote.parsed.options, remote.secretFields))
  {
    var masked;
    masked, ok := MaskOptions(remote);
    stored := map[];
    if ok {
      stored := BuildOptions(masked, Row(remote));
      ghost var incoming :| Normalized(masked, incoming)
                         && stored == Merged(incoming, remote.secretFields, remote.parsed.options);
      RoundTripIff(remote.parsed.options, remote.secretFields, incoming);
    }
  }

  /** An empty secret comes back as the marker, and the marker is then stored as the credential. */
  lemma EmptySecretBecomesMarker(prior: Options, secretFields: seq<string>, incoming: Options, k: string)
    requires NormalKeys(prior) && Normalized(Masked(prior, secretFields), incoming)
    requires k in prior && IsSecret(k, secretFields) && prior[k] == ""
    ensures k in incoming && Merged(incoming, secretFields, prior)[k] == SECRET_MARKER
  {
    NormalizedIsRequest(Masked(prior, secretFields), incoming);
    assert incoming[k] == SECRET_MARKER;
    assert !Held(k, secretFields, prior);
  }

  // ----- any number of edits

  /** One saved form: the normalised options it sent, and the secret fields computed for the new row. */
  datatype Edit = Edit(incoming: Options, secretFields: seq<string>)

  function Edited(remote: Remote, edit: Edit): Remote {
    Remote(Readable(Merged(edit.incoming, remote.secretFields, OldOptions(Row(remote)))), edit.secretFields)
  }

  function EditedAll(remote: Remote, edits: seq<Edit>): Remote
    decreases |edits|
  {
    if edits == [] then remote else EditedAll(Edited(remote, edits[0]), edits[1..])
  }

  predicate ListsSecret(secretFields: seq<string>, key: string) {
    exists i :: 0 <= i < |secretFields| && ToLower(secretFields[i]) == key
  }

  /** The form still has the field, left alone, and the field still counts as a secret. */
  predicate LeavesAlone(edit: Edit, key: string) {
    key in edit.incoming && Untouched(edit.incoming[key]) && ListsSecret(edit.secretFields, key)
  }

  /** A held secret survives any number of saved forms that leave its field alone. */
  lemma {:induction false} HeldSecretSurvives(remote: Remote, edits: seq<Edit>, key: string)
    requires remote.parsed.Readable? && Held(key, remote.secretFields, remote.parsed.options)
    requires forall i :: 0 <= i < |edits| ==> LeavesAlone(edits[i], key)
    ensures var last := EditedAll(remote, edits);
            && last.parsed.Readable? && Held(key, last.secretFields, last.parsed.options)
            && last.parsed.options[key] == remote.parsed.options[key]
    decreases |edits|
  {
    if edits != [] {
      assert LeavesAlone(edits[0], key);
      var next := Edited(remote, edits[0]);
      assert next.parsed.options[key] == remote.parsed.options[key];
      assert Held(key, next.secretFields, next.parsed.options);
      HeldSecretSurvives(next, edits[1..], key);
    }
  }

  /** Whatever the form sends, the marker never takes the place of a credential the row holds. */
  lemma MarkerNeverReplacesSecret(incoming: Options, secretFields: seq<string>, prior: Options, k: string)
    requires k in incoming && Held(k, secretFields, prior) && prior[k] != SECRET_MARKER
    ensures Merged(incoming, secretFields, prior)[k] != SECRET_MARKER && Merged(incoming, secretFields, prior)[k] != ""
  {
  }

  /** No stored credential leaves through the masked options: rows that agree outside their secrets are
      masked alike. */
  lemma MaskHidesSecrets(a: Options, b: Options, secretFields: seq<string>)
    requires a.Keys == b.Keys
    requires forall k :: k in a && !IsSecret(k, secretFields) ==> a[k] == b[k]
    ensures Masked(a, secretFields) == Masked(b, secretFields)
  {
  }

  // ----- what the merge and the mask mean, on the values themselves

  /** What a form sends for a field it left alone: nothing, or the eight bullets of the mask. */
  ghost predicate Blank(value: string) {
    value == "" || value == "••••••••"
  }

  ghost predicate Listed(secretFields: seq<string>, key: string) {
    exists i :: 0 <= i < |secretFields| && ToLower(secretFields[i]) == key
  }

  /** A typed value is stored, and so is every value outside the secret fields. For a secret field left alone the old
      value is kept when there was one, and the blank is stored when there was none. Nothing else is stored. */
  lemma MergeMeaning(incoming: Options, secretFields: seq<string>, prior: Options, k: string)
    ensures k in Merged(incoming, secretFields, prior) <==> k in incoming
    ensures k in incoming && !Blank(incoming[k]) ==> Merged(incoming, secretFields, prior)[k] == incoming[k]
    ensures k in incoming && !Listed(secretFields, k) ==> Merged(incoming, secretFields, prior)[k] == incoming[k]
    ensures k in incoming && Listed(secretFields, k) && Blank(incoming[k]) ==>
              Merged(incoming, secretFields, prior)[k] == if k in prior && prior[k] != "" then prior[k] else incoming[k]
  {
    assert Listed(secretFields, k) && k in prior && prior[k] != "" <==> Held(k, secretFields, prior);
  }

  /** The mask hides the fields whose lower-case name is a secret's, and shows every other value as it is. */
  lemma MaskMeaning(options: Options, secretFields: seq<string>, k: string)
    ensures k in Masked(options, secretFields) <==> k in options
    ensures k in options && Listed(secretFields, ToLower(k)) ==> Masked(options, secretFields)[k] == "••••••••"
    ensures k in options && !Listed(secretFields, ToLower(k)) ==> Masked(options, secretFields)[k] == options[k]
  {
    assert Listed(secretFields, ToLower(k)) <==> IsSecret(k, secretFields);
  }

  /** A normalised key is the key without the white space around it, letter by letter in lower case. */
  lemma NormMeaning(key: string) returns (i: nat, j: nat)
    ensures i <= j <= |key| && |Norm(key)| == j - i
    ensures forall m :: 0 <= m < j - i ==> Norm(key)[m] == SqlLike.Lower(key[i + m])
    ensures forall m :: 0 <= m < |key| && !(i <= m < j) ==> Translate.IsSpace(key[m])
    ensures i < j ==> !Translate.IsSpace(key[i]) && !Translate.IsSpace(key[j - 1])
  {
    i, j := Translate.TrimMeaning(key);
    Translate.TrimShape(key);
  }

  lemma {:induction false} EditedInTwo(remote: Remote, a: seq<Edit>, b: seq<Edit>)
    ensures EditedAll(remote, a + b) == EditedAll(EditedAll(remote, a), b)
    decreases |a|
  {
    if a == [] {
      assert a + b == b;
    } else {
      assert (a + b)[0] == a[0] && (a + b)[1..] == a[1..] + b;
      EditedInTwo(Edited(remote, a[0]), a[1..], b);
    }
  }

  /** The credential last typed is the one held, however often the form was saved before and, with the field left
      alone, after. */
  lemma LastTypedIsHeld(remote: Remote, before: seq<Edit>, typed: Edit, after: seq<Edit>, key: string)
    requires key in typed.incoming && !Blank(typed.incoming[key]) && Listed(typed.secretFields, key)
    requires forall i :: 0 <= i < |after| ==>
               key in after[i].incoming && Blank(after[i].incoming[key]) && Listed(after[i].secretFields, key)
    ensures var last := EditedAll(remote, before + [typed] + after);
            last.parsed.Readable? && key in last.parsed.options && last.parsed.options[key] == typed.incoming[key]
  {
    EditedInTwo(remote, before + [typed], after);
    EditedInTwo(remote, before, [typed]);
    var row := EditedAll(remote, before);
    var next := Edited(row, typed);
    assert EditedAll(row, [typed]) == next;
    MergeMeaning(typed.incoming, row.secretFields, OldOptions(Row(row)), key);
    assert Held(key, next.secretFields, next.parsed.options);
    forall i | 0 <= i < |after| ensures LeavesAlone(after[i], key) {
    }
    HeldSecretSurvives(next, after, key);
  }
}
