/**
 Keyring references: `dbboard.{id}.{field}`, how one is minted and how its
 owner is read back out of it.
 */
module Refs {
  import opened Wrappers

  const PREFIX: string := "dbboard."
  const AI_INFIX: string := "ai."

  /** The ref under which connection `id` keeps its secret `field`. */
  function KeyringRef(id: string, field: string): string {
    PREFIX + id + "." + field
  }

  /** The AI settings' own scheme, one infix away from the one above. */
  function AiKeyringRef(id: string, field: string): string {
    PREFIX + AI_INFIX + id + "." + field
  }

  /** Splits at the last dot; `None` when there is none. */
  function RsplitOnce(s: string): Option<(string, string)> {
    if s == "" then None
    else
      var init, last := s[..|s| - 1], s[|s| - 1];
      if last == '.' then Some((init, ""))
      else
        match RsplitOnce(init)
        case None => None
        case Some((head, tail)) => Some((head, tail + [last]))
  }

  function SplitRef(keyRef: string): Option<(string, string)> {
    if !(PREFIX <= keyRef) then None
    else
      match RsplitOnce(keyRef[|PREFIX|..])
      case None => None
      case Some((owner, field)) => if owner != "" && field != "" then Some((owner, field)) else None
  }

  /** The id a ref was minted for, read out of the ref itself. */
  function RefOwner(keyRef: string): Option<string> {
    match SplitRef(keyRef)
    case None => None
    case Some((owner, _)) => Some(owner)
  }

  /** A split point is the last dot exactly when what follows it is dot-free. */
  lemma {:induction false} RsplitAtLastDot(s: string, head: string, tail: string)
    ensures RsplitOnce(s) == Some((head, tail)) <==> s == head + "." + tail && '.' !in tail
    decreases |s|
  {
    if s != "" {
      var init, last := s[..|s| - 1], s[|s| - 1];
      assert s == init + [last];
      if last == '.' {
        if s == head + "." + tail && '.' !in tail {
          if tail != "" { assert false; }
          assert head == (head + ".")[..|head|] == init;
        }
        if head == init && tail == "" {
          assert s == head + "." + tail;
        }
      } else if tail == "" {
        assert head + "." + tail == head + ".";
      } else {
        var t := tail[..|tail| - 1];
        RsplitAtLastDot(init, head, t);
        assert tail == t + [tail[|tail| - 1]];
        if RsplitOnce(s) == Some((head, tail)) {
          match RsplitOnce(init)
          case Some((h, t0)) =>
            assert tail == t0 + [last];
            assert t == t0;
            assert s == head + "." + t + [last] == head + "." + tail;
        }
        if s == head + "." + tail && '.' !in tail {
          assert s == (head + "." + t) + [tail[|tail| - 1]];
          assert init == head + "." + t;
        }
      }
    }
  }

  /**
   Minting and splitting are inverse, dots in the id included: a ref splits
   into an owner and a field exactly when it was minted from them.
   */
  lemma SplitInvertsMinting(keyRef: string, id: string, field: string)
    ensures SplitRef(keyRef) == Some((id, field)) <==>
            keyRef == KeyringRef(id, field) && id != "" && field != "" && '.' !in field
  {
    var body := id + "." + field;
    if keyRef == KeyringRef(id, field) {
      assert keyRef == PREFIX + body;
    }
    if PREFIX <= keyRef {
      RsplitAtLastDot(keyRef[|PREFIX|..], id, field);
      assert keyRef == PREFIX + keyRef[|PREFIX|..];
      assert PREFIX + body == KeyringRef(id, field);
    }
  }

  /** The owner of a minted ref is the connection it was minted for. */
  lemma OwnerOfMintedRef(id: string, field: string)
    requires id != "" && field != "" && '.' !in field
    ensures RefOwner(KeyringRef(id, field)) == Some(id)
  {
    SplitInvertsMinting(KeyringRef(id, field), id, field);
  }

  /** Two mintings agree only on the same id and field; even an empty id cannot be confused with another. */
  lemma MintingIsInjective(id: string, field: string, id': string, field': string)
    requires '.' !in field && '.' !in field'
    requires KeyringRef(id, field) == KeyringRef(id', field')
    ensures id == id' && field == field'
  {
    var s, s' := id + "." + field, id' + "." + field';
    assert KeyringRef(id, field) == PREFIX + s && KeyringRef(id', field') == PREFIX + s';
    assert s == (PREFIX + s)[|PREFIX|..] == (PREFIX + s')[|PREFIX|..] == s';
    RsplitAtLastDot(s, id, field);
    RsplitAtLastDot(s, id', field');
  }

  /**
   The `ai.` infix alone does not keep the two namespaces apart: a connection
   id may start with it. The refs meet exactly when it does and the fields agree.
   */
  lemma ConnectionRefMeetsAiRef(id: string, field: string, aiId: string, aiField: string)
    requires '.' !in field && '.' !in aiField
    ensures KeyringRef(id, field) == AiKeyringRef(aiId, aiField) <==> id == AI_INFIX + aiId && field == aiField
  {
    assert AiKeyringRef(aiId, aiField) == KeyringRef(AI_INFIX + aiId, aiField);
    if KeyringRef(id, field) == AiKeyringRef(aiId, aiField) {
      MintingIsInjective(id, field, AI_INFIX + aiId, aiField);
    }
  }
}
