/**
 * The Caddyfile written next to the certificates is the bundled template
 * with the placeholder host replaced by the name of the application's
 * docker-compose service (`writeCaddyFile`).
 */
module Caddyfile {
  import opened Text

  /** The token the bundled template uses for the upstream host. */
  const Placeholder: string := "LARAVEL_APP_SERVICE_HOST"

  /**
   * `Str::replace('LARAVEL_APP_SERVICE_HOST', $service, $template)`: the
   * template cut at every placeholder gives pieces without a placeholder;
   * glued back with the placeholder they are the template, glued with the
   * service name they are the rendered file.
   */
  function Render(template: string, service: string): (r: string)
    ensures Join(Pieces(template, Placeholder), Placeholder) == template
    ensures Join(Pieces(template, Placeholder), service) == r
    ensures forall i :: 0 <= i < |Pieces(template, Placeholder)| ==> !Contains(Pieces(template, Placeholder)[i], Placeholder)
  {
    ReplaceAllPieces(template, Placeholder, service);
    PiecesHaveNoToken(template, Placeholder);
    ReplaceAll(template, Placeholder, service)
  }

  /** A template without the placeholder is written as it is. */
  lemma RenderWithoutPlaceholder(template: string, service: string)
    requires !Contains(template, Placeholder)
    ensures Render(template, service) == template
  {
    ReplaceAllAbsent(template, Placeholder, service);
  }
}
