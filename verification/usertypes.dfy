/** The two kinds of account both the sign-up and the login screens offer;
    the screens keep the choice as a string and compare it with these. */
module UserTypes {

  const Donator := "donator"
  const Trust := "trust"

  /** The only values the user-type selectors ever store. */
  predicate IsUserType(t: string) {
    t == Donator || t == Trust
  }

}
