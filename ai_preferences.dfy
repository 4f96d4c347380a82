/** `AIPreferences`: the DeepSeek API key and the AI switch, kept in the
    private `SharedPreferences` file "ai_preferences". The file is a map from
    key to typed value; an `apply()` edit is visible to every later read at
    once, so an edit is one map update. */
module Preferences {
  import opened Wrappers
  import opened KotlinText

  const PREFS_NAME := "ai_preferences"
  const KEY_API_KEY := "deepseek_api_key"
  const KEY_AI_ENABLED := "ai_enabled"

  /** A stored preference value. */
  datatype PrefValue = PString(s: string) | PBool(b: bool)

  /** The contents of a preferences file. */
  type Store = map<string, PrefValue>

  /** The two keys hold values of the types this class writes. */
  predicate WellTyped(p: Store) {
    (KEY_API_KEY in p ==> p[KEY_API_KEY].PString?)
    && (KEY_AI_ENABLED in p ==> p[KEY_AI_ENABLED].PBool?)
  }

  /** `getString(KEY_API_KEY, null)`. */
  function ApiKeyIn(p: Store): (r: Option<string>)
    ensures WellTyped(p) ==> (r.Some? <==> KEY_API_KEY in p)
    ensures r.Some? ==> KEY_API_KEY in p && p[KEY_API_KEY] == PString(r.value)
  {
    if KEY_API_KEY in p && p[KEY_API_KEY].PString? then Some(p[KEY_API_KEY].s) else None
  }

  /** `getBoolean(KEY_AI_ENABLED, false) && !getApiKey().isNullOrBlank()`:
      the switch is on and a key with some non-whitespace character is
      stored. */
  function AIEnabledIn(p: Store): (b: bool)
    ensures b <==> KEY_AI_ENABLED in p && p[KEY_AI_ENABLED] == PBool(true)
                   && ApiKeyIn(p).Some? && !IsBlank(ApiKeyIn(p).value)
  {
    var on := KEY_AI_ENABLED in p && p[KEY_AI_ENABLED].PBool? && p[KEY_AI_ENABLED].b;
    var key := ApiKeyIn(p);
    on && !(key.None? || IsBlank(key.value))
  }

  /** `saveApiKey`: stores the key and sets the switch to `apiKey.isNotBlank()`;
      every other entry is kept. */
  function SaveApiKeyIn(p: Store, apiKey: string): (r: Store)
    ensures r.Keys == p.Keys + {KEY_API_KEY, KEY_AI_ENABLED}
    ensures r[KEY_API_KEY] == PString(apiKey) && r[KEY_AI_ENABLED] == PBool(!IsBlank(apiKey))
    ensures forall k :: k in p && k != KEY_API_KEY && k != KEY_AI_ENABLED ==> r[k] == p[k]
  {
    p[KEY_API_KEY := PString(apiKey)][KEY_AI_ENABLED := PBool(!IsBlank(apiKey))]
  }

  /** `clearApiKey`: removes the key and switches AI off; every other entry
      is kept. */
  function ClearApiKeyIn(p: Store): (r: Store)
    ensures r.Keys == p.Keys - {KEY_API_KEY} + {KEY_AI_ENABLED}
    ensures r[KEY_AI_ENABLED] == PBool(false)
    ensures forall k :: k in p && k != KEY_API_KEY && k != KEY_AI_ENABLED ==> r[k] == p[k]
  {
    (p - {KEY_API_KEY})[KEY_AI_ENABLED := PBool(false)]
  }

  /** Both edits keep the two keys well typed. */
  lemma EditsKeepTypes(p: Store, apiKey: string)
    requires WellTyped(p)
    ensures WellTyped(SaveApiKeyIn(p, apiKey)) && WellTyped(ClearApiKeyIn(p))
  {
  }

  /** After a save the key reads back, and AI is on exactly when the key is
      not blank. */
  lemma SaveThenRead(p: Store, apiKey: string)
    ensures ApiKeyIn(SaveApiKeyIn(p, apiKey)) == Some(apiKey)
    ensures AIEnabledIn(SaveApiKeyIn(p, apiKey)) <==> !IsBlank(apiKey)
  {
  }

  /** After a clear no key reads back and AI is off. */
  lemma ClearThenRead(p: Store)
    ensures ApiKeyIn(ClearApiKeyIn(p)) == None
    ensures !AIEnabledIn(ClearApiKeyIn(p))
  {
  }

  /** The last edit decides: a save overrides an earlier save or clear, a
      clear undoes an earlier save, and clearing twice is clearing once. */
  lemma LastEditWins(p: Store, k1: string, k2: string)
    ensures SaveApiKeyIn(SaveApiKeyIn(p, k1), k2) == SaveApiKeyIn(p, k2)
    ensures SaveApiKeyIn(ClearApiKeyIn(p), k2) == SaveApiKeyIn(p, k2)
    ensures ClearApiKeyIn(SaveApiKeyIn(p, k1)) == ClearApiKeyIn(p)
    ensures ClearApiKeyIn(ClearApiKeyIn(p)) == ClearApiKeyIn(p)
  {
    assert SaveApiKeyIn(SaveApiKeyIn(p, k1), k2) == SaveApiKeyIn(p, k2);
    assert SaveApiKeyIn(ClearApiKeyIn(p), k2) == SaveApiKeyIn(p, k2);
    assert ClearApiKeyIn(SaveApiKeyIn(p, k1)) == ClearApiKeyIn(p);
    assert ClearApiKeyIn(ClearApiKeyIn(p)) == ClearApiKeyIn(p);
  }

  /** A preferences file nothing has been written to holds no key, and AI
      is off. */
  lemma FreshStore()
    ensures ApiKeyIn(map[]) == None
    ensures !AIEnabledIn(map[])
  {
  }

  /** Saving a blank key stores it but leaves AI off, as clearing does. */
  lemma BlankKeyDisables(p: Store, apiKey: string)
    requires IsBlank(apiKey)
    ensures !AIEnabledIn(SaveApiKeyIn(p, apiKey))
    ensures AIEnabledIn(SaveApiKeyIn(p, apiKey)) == AIEnabledIn(ClearApiKeyIn(p))
  {
    SaveThenRead(p, apiKey);
    ClearThenRead(p);
  }

  class AIPreferences {
    /** The preferences file. */
    var prefs: Store

    ghost predicate Valid()
      reads this
    {
      WellTyped(prefs)
    }

    /** Opens the file with its current contents. */
    constructor (prefs: Store)
      requires WellTyped(prefs)
      ensures this.prefs == prefs && Valid()
    {
      this.prefs := prefs;
    }

    /** `saveApiKey`. */
    method SaveApiKey(apiKey: string)
      requires Valid()
      modifies this
      ensures Valid() && prefs == SaveApiKeyIn(old(prefs), apiKey)
    {
      prefs := prefs[KEY_API_KEY := PString(apiKey)][KEY_AI_ENABLED := PBool(!IsBlank(apiKey))];
    }

    /** `getApiKey`: null exactly when no key is stored. */
    method GetApiKey() returns (r: Option<string>)
      requires Valid()
      ensures r == ApiKeyIn(prefs)
      ensures r.Some? <==> KEY_API_KEY in prefs
    {
      r := if KEY_API_KEY in prefs then Some(prefs[KEY_API_KEY].s) else None;
    }

    /** `isAIEnabled`. */
    method IsAIEnabled() returns (b: bool)
      requires Valid()
      ensures b == AIEnabledIn(prefs)
      ensures b ==> KEY_API_KEY in prefs && !IsBlank(prefs[KEY_API_KEY].s)
    {
      var key := GetApiKey();
      var on := if KEY_AI_ENABLED in prefs then prefs[KEY_AI_ENABLED].b else false;
      b := on && !(key.None? || IsBlank(key.value));
    }

    /** `clearApiKey`. */
    method ClearApiKey()
      requires Valid()
      modifies this
      ensures Valid() && prefs == ClearApiKeyIn(old(prefs))
    {
      prefs := (prefs - {KEY_API_KEY})[KEY_AI_ENABLED := PBool(false)];
    }
  }
}
