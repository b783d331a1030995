/** The join password and default role of a stored room, normalised when the room is repaired. */
module RoomSecurity {
  import opened Js
  import opened Repair

  datatype Security = Security(enabled: Raw, updatedAt: Raw, admissionVersion: Raw, defaultRole: Raw, hash: Raw, salt: Raw)

  const DefaultSecurity := Security(Boolean(false), Null, Amount(0.0), Word("guest"), Undefined, Undefined)

  predicate IsCount(r: Raw) {
    IsFinite(r) && r.n.value == r.n.value.Floor as real && r.n.value >= 0.0
  }

  function TextOrNothing(r: Raw): Raw {
    if r.Text? then r else Undefined
  }

  predicate Enabled(s: Security) {
    s.enabled == Boolean(true)
  }

  /** Neither secret is missing, empty or otherwise falsy. */
  predicate HasSecrets(s: Security) {
    Truthy(s.hash) && Truthy(s.salt)
  }

  /** Field by field, before the password is looked at. */
  function Coerced(s: Security): Security {
    Security(Boolean(Enabled(s)), if IsFinite(s.updatedAt) then s.updatedAt else Null,
             if IsCount(s.admissionVersion) then s.admissionVersion else Amount(0.0),
             if Is(s.defaultRole, "guest") then s.defaultRole else Word("moderator"),
             TextOrNothing(s.hash), TextOrNothing(s.salt))
  }

  function Disabled(s: Security): Security {
    s.(enabled := Boolean(false), hash := Undefined, salt := Undefined)
  }

  function Normalized(s: Security): Security {
    var c := Coerced(s);
    if Enabled(c) && !HasSecrets(c) then Disabled(c) else c
  }

  /** The security after a repair; one that is no object is replaced by the default. */
  function RepairedSecurity(s: Option<Security>): Security {
    if s.None? then DefaultSecurity else Normalized(s.value)
  }

  function SecurityFindings(s: Option<Security>): seq<Finding> {
    if s.None? then [SecurityRepaired]
    else If(Enabled(s.value) && !HasSecrets(s.value), PasswordDisabled)
  }

  /** Every field has its type, and an enabled password has both secrets. */
  predicate SecurityFits(s: Security) {
    && s.enabled.Boolean? && (s.updatedAt == Null || IsFinite(s.updatedAt)) && IsCount(s.admissionVersion)
    && (Is(s.defaultRole, "guest") || Is(s.defaultRole, "moderator"))
    && (s.hash == Undefined || s.hash.Text?) && (s.salt == Undefined || s.salt.Text?)
    && (Enabled(s) ==> HasSecrets(s))
  }

  /** Repairing settles the security, a second repair neither changes nor reports anything, and
      a password stays enabled exactly when both its secrets are non-empty texts. */
  lemma SecuritySettles(s: Option<Security>)
    ensures var r := RepairedSecurity(s);
            && SecurityFits(r)
            && RepairedSecurity(Some(r)) == r && SecurityFindings(Some(r)) == []
            && (Enabled(r) <==> s.Some? && Enabled(s.value) && NonEmptyText(s.value.hash) && NonEmptyText(s.value.salt))
  {
  }

  /** A repair that turns the password off reports it exactly when a secret is falsy: one that
      is a number, an object or `true` is dropped in silence. */
  lemma PasswordLostInSilenceIff(s: Security)
    ensures Enabled(s) && !Enabled(Normalized(s)) && SecurityFindings(Some(s)) == []
            <==> Enabled(s) && HasSecrets(s) && !(s.hash.Text? && s.salt.Text?)
  {
  }

  /** Field by field, what a repair keeps: a finite or no time of the last change, a whole and
      non-negative version, a guest as default role, and text secrets unless the password goes off,
      which takes both secrets along. */
  lemma SecurityFieldsSurvive(s: Security)
    ensures var r := Normalized(s);
            && (r.updatedAt == s.updatedAt <==> IsFinite(s.updatedAt) || s.updatedAt == Null)
            && (!IsFinite(s.updatedAt) ==> r.updatedAt == Null)
            && (r.admissionVersion == s.admissionVersion <==> IsCount(s.admissionVersion))
            && (!IsCount(s.admissionVersion) ==> r.admissionVersion == Amount(0.0))
            && (Is(r.defaultRole, "guest") <==> Is(s.defaultRole, "guest")) && (Is(s.defaultRole, "guest") ==> r.defaultRole == s.defaultRole)
            && (if Enabled(s) && !Enabled(r) then r.hash == Undefined && r.salt == Undefined
                else (s.hash.Text? ==> r.hash == s.hash) && (s.salt.Text? ==> r.salt == s.salt))
  {
  }
}
