/**
 * The two elementary transitions of the automaton: an epsilon jump and a
 * single-character test that may be inverted.
 */
module Transition {

  datatype Transition =
    | Jump
    | Char(character: char, inverse: bool)

  /**
   * Whether the transition accepts the text at `position`.  A character
   * test reads `source[position]`, which must exist; `length` is not used.
   */
  function Validated(t: Transition, source: seq<char>, position: nat, length: nat): (r: bool)
    requires t.Char? ==> position < |source|
    ensures t.Jump? ==> r
    ensures t.Char? && !t.inverse ==> (r <==> source[position] == t.character)
    ensures t.Char? && t.inverse ==> (r <==> source[position] != t.character)
  {
    match t
    case Jump => true
    case Char(character, inverse) => (character == source[position]) != inverse
  }

  /** How many characters the transition consumes. */
  function Forward(t: Transition): (r: nat)
    ensures r <= 1
    ensures r == 0 <==> t.Jump?
  {
    match t
    case Jump => 0
    case Char(_, _) => 1
  }

  /** Toggling `inverse` flips the outcome of a character test on every input. */
  lemma InverseFlipsValidation(character: char, inverse: bool, source: seq<char>, position: nat, length: nat)
    requires position < |source|
    ensures Validated(Char(character, !inverse), source, position, length)
         == !Validated(Char(character, inverse), source, position, length)
  {
  }

  /**
   * A transition that accepts at a position inside the text never moves the
   * position past the end of the text.
   */
  lemma ValidatedStaysInText(t: Transition, source: seq<char>, position: nat, length: nat)
    requires position < |source|
    requires Validated(t, source, position, length)
    ensures position + Forward(t) <= |source|
  {
  }
}
