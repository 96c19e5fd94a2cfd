/** The last step of locating the latest bulletin: the href read from the
    "ACCEDER AL ÚLTIMO BOJA" button is made absolute. */
module Bulletin {
  import opened Strings

  /** The site origin put in front of a relative href. */
  const Origin: string := "https://www.juntadeandalucia.es"

  /** The prefix taken to mean "already absolute". */
  const Scheme: string := "http"

  /** Leaves an href that starts with "http" alone and puts the site origin
      in front of any other. The href is always kept as the tail of the
      result, and the result always counts as absolute. */
  function Absolutise(href: string): (r: string)
    ensures StartsWith(r, Scheme)
    ensures EndsWith(r, href)
    ensures r == href <==> StartsWith(href, Scheme)
    ensures r != href ==> r == Origin + href
  {
    if StartsWith(href, Scheme) then href else Origin + href
  }

  /** Making an href absolute twice is the same as doing it once. */
  lemma AbsolutiseIdempotent(href: string)
    ensures Absolutise(Absolutise(href)) == Absolutise(href)
  {
  }
}
